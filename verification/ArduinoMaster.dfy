/** The master's side of a transaction, and what its retries do to the slave. */
module ArduinoMaster {
  import opened SerialMessages
  import opened SlaveFramer
  import opened SerialProperties
  import Octets

  /** `recv` polls once per millisecond and gives up on the poll that finds its counter above 50. */
  const POLLS := 52

  type Arrivals = seq<seq<Octet>>

  function FirstPolls(arrivals: Arrivals, n: nat): Arrivals {
    if n <= |arrivals| then arrivals[..n] else arrivals
  }

  /** What a transaction can still read: the bytes that arrive within its polls. */
  function Got(arrivals: Arrivals): seq<Octet> {
    Concat(FirstPolls(arrivals, 52))
  }

  function Min(a: nat, b: nat): nat {
    if a <= b then a else b
  }

  /** What becomes available at poll `k`. */
  function Available(arrivals: Arrivals, k: nat): seq<Octet> {
    if k < |arrivals| then arrivals[k] else []
  }

  lemma FirstPollsStep(arrivals: Arrivals, n: nat)
    ensures Concat(FirstPolls(arrivals, n + 1)) == Concat(FirstPolls(arrivals, n)) + Available(arrivals, n)
  {
    if n < |arrivals| {
      assert arrivals[..n + 1][..n] == arrivals[..n];
    } else {
      assert arrivals[..|arrivals|] == arrivals;
    }
  }

  lemma {:induction false} FirstPollsMonotone(arrivals: Arrivals, n: nat, m: nat)
    requires n <= m
    ensures Concat(FirstPolls(arrivals, n)) <= Concat(FirstPolls(arrivals, m))
    decreases m - n
  {
    if n < m {
      FirstPollsStep(arrivals, n);
      FirstPollsMonotone(arrivals, n + 1, m);
    }
  }

  lemma PollGives(arrivals: Arrivals, k: nat, done: nat)
    requires k < POLLS && done == |Concat(FirstPolls(arrivals, k))|
    ensures |Concat(FirstPolls(arrivals, k + 1))| == done + |Available(arrivals, k)| <= |Got(arrivals)|
    ensures forall j :: 0 <= j < |Available(arrivals, k)| ==> Got(arrivals)[done + j] == Available(arrivals, k)[j]
  {
    FirstPollsStep(arrivals, k);
    FirstPollsMonotone(arrivals, k + 1, POLLS);
  }

  /** The first `n` bytes of the buffer `was` have been overwritten with those of `got`. */
  predicate Filled(now: seq<Octet>, got: seq<Octet>, was: seq<Octet>, n: nat) {
    && |now| == |was| && n <= |was| && n <= |got|
    && (forall k :: 0 <= k < n ==> now[k] == got[k])
    && (forall k :: n <= k < |was| ==> now[k] == was[k])
  }

  class ArduinoSlave {
    const maxRetry: int
    var transactionSent: nat
    var transactionReceived: nat

    constructor (maxRetry: int)
      ensures this.maxRetry == maxRetry && transactionSent == transactionReceived == 0
    {
      this.maxRetry := maxRetry;
      transactionSent, transactionReceived := 0, 0;
    }

    /** The inner loop of `recv`. */
    method ReadAvailable(data: array<Octet>, size: nat, done: nat, available: seq<Octet>) returns (next: nat)
      requires done < size <= data.Length
      modifies data
      ensures next == Min(size, done + |available|)
      ensures forall k :: done <= k < next ==> data[k] == available[k - done]
      ensures forall k :: 0 <= k < data.Length && !(done <= k < next) ==> data[k] == old(data[k])
    {
      next := done;
      while next < size && next - done < |available|
        invariant done <= next <= size && next - done <= |available|
        invariant forall k :: done <= k < next ==> data[k] == available[k - done]
        invariant forall k :: 0 <= k < data.Length && !(done <= k < next) ==> data[k] == old(data[k])
      {
        data[next] := available[next - done];
        next := next + 1;
      }
    }

    /** Reads up to `size` bytes into `data`; `arrivals[k]` becomes available at poll `k`. */
    method Recv(data: array<Octet>, size: nat, arrivals: Arrivals) returns (ok: bool)
      requires size <= data.Length
      modifies this`transactionReceived, data
      ensures ok <==> size <= |Got(arrivals)|
      ensures Filled(data[..], Got(arrivals), old(data[..]), Min(size, |Got(arrivals)|))
      ensures transactionReceived == old(transactionReceived) + if ok && size > 0 then 1 else 0
    {
      var idleCounter, done := 0, 0;
      ghost var got, was := Got(arrivals), data[..];
      while done < size
        invariant 0 <= idleCounter < POLLS
        invariant done <= size && (done < size || size == 0)
        invariant done == |Concat(FirstPolls(arrivals, idleCounter))|
        invariant Filled(data[..], got, was, done)
        invariant transactionReceived == old(transactionReceived)
        decreases POLLS - idleCounter
      {
        PollGives(arrivals, idleCounter, done);
        done := ReadAvailable(data, size, done, Available(arrivals, idleCounter));
        if done == size {
          transactionReceived := transactionReceived + 1;
          return true;
        }
        if idleCounter > 50 {
          return false;
        }
        idleCounter := idleCounter + 1;
      }
      return true;
    }

    /** The loop of `pinMode`, `initPwm` and `pwmDuty`: send, then read the one-byte reply over the
        request itself. `replies[i]` is what arrives during attempt `i`; `wire` is what `send` wrote,
        attempt by attempt. */
    method Transact(msg: array<Octet>, replies: seq<Arrivals>) returns (wire: seq<seq<Octet>>)
      requires msg.Length > 0
      modifies this, msg
      ensures |wire| == Attempts(replies, maxRetry, 1)
      ensures forall i :: 0 <= i < |wire| ==> wire[i] == old(msg[..])
      ensures transactionSent == old(transactionSent) + |wire|
      ensures transactionReceived == old(transactionReceived) + if Answered(replies, maxRetry, 1) then 1 else 0
    {
      wire := [];
      var i := 0;
      while i < maxRetry
        invariant 0 <= i && (i <= maxRetry || maxRetry <= 0 == i)
        invariant msg[..] == old(msg[..])
        invariant |wire| == i
        invariant forall k :: 0 <= k < |wire| ==> wire[k] == old(msg[..])
        invariant forall k :: 0 <= k < i ==> !Replied(replies, k, 1)
        invariant transactionSent == old(transactionSent) + i
        invariant transactionReceived == old(transactionReceived)
      {
        transactionSent := transactionSent + 1;
        wire := wire + [msg[..]];
        var ok := Recv(msg, 1, if i < |replies| then replies[i] else []);
        if ok {
          AttemptsIs(replies, maxRetry, 1, i);
          return;
        }
        i := i + 1;
      }
      if maxRetry > 0 { NoAnswer(replies, maxRetry, 1); }
    }

    method PinMode(pin: Octet, mode: Octet, replies: seq<Arrivals>) returns (wire: seq<seq<Octet>>)
      modifies this
      ensures |wire| == Attempts(replies, maxRetry, 1)
      ensures forall i :: 0 <= i < |wire| ==> wire[i] == Encode(SerialMessages.PinMode(pin, mode))
      ensures transactionSent == old(transactionSent) + |wire|
      ensures transactionReceived == old(transactionReceived) + if Answered(replies, maxRetry, 1) then 1 else 0
    {
      var msg := new Octet[2](_ => 0);
      msg[0] := 1;
      msg[1] := SetParam(pin, msg[1], 0x3F, 0);
      msg[1] := SetParam(mode, msg[1], 0xC0, 6);
      assert msg[..] == Encode(SerialMessages.PinMode(pin, mode));
      wire := Transact(msg, replies);
    }

    method InitPwm(timer: Octet, channel: Octet, prescale: Octet, replies: seq<Arrivals>)
      returns (wire: seq<seq<Octet>>)
      modifies this
      ensures |wire| == Attempts(replies, maxRetry, 1)
      ensures forall i :: 0 <= i < |wire| ==> wire[i] == Encode(PwmInit(timer, channel, prescale))
      ensures transactionSent == old(transactionSent) + |wire|
      ensures transactionReceived == old(transactionReceived) + if Answered(replies, maxRetry, 1) then 1 else 0
    {
      var msg := new Octet[2](_ => 0);
      msg[0] := 5;
      msg[1] := SetParam(timer, msg[1], 0x06, 1);
      msg[1] := SetParam(channel, msg[1], 0x01, 0);
      msg[1] := SetParam(prescale, msg[1], 0x38, 3);
      assert msg[..] == Encode(PwmInit(timer, channel, prescale));
      wire := Transact(msg, replies);
    }

    method PwmDuty(timer: Octet, channel: Octet, duty: Octet, replies: seq<Arrivals>) returns (wire: seq<seq<Octet>>)
      modifies this
      ensures |wire| == Attempts(replies, maxRetry, 1)
      ensures forall i :: 0 <= i < |wire| ==> wire[i] == Encode(SerialMessages.PwmDuty(timer, channel, duty))
      ensures transactionSent == old(transactionSent) + |wire|
      ensures transactionReceived == old(transactionReceived) + if Answered(replies, maxRetry, 1) then 1 else 0
    {
      var msg := new Octet[3](_ => 0);
      msg[0] := 6;
      msg[1] := SetParam(timer, msg[1], 0x06, 1);
      msg[1] := SetParam(channel, msg[1], 0x01, 0);
      msg[2] := duty;
      assert msg[..] == Encode(SerialMessages.PwmDuty(timer, channel, duty));
      wire := Transact(msg, replies);
    }

    /** A two-byte reply, received into a variable of its own. */
    method RecvWord(arrivals: Arrivals) returns (ok: bool, value: int)
      modifies this`transactionReceived
      ensures ok <==> 2 <= |Got(arrivals)|
      ensures 0 <= value < 0x1_0000 && (ok ==> Octets.LittleEndian(Got(arrivals), value))
      ensures transactionReceived == old(transactionReceived) + if ok then 1 else 0
    {
      var rsp := new Octet[2](_ => 0);
      ok := Recv(rsp, 2, arrivals);
      value := Octets.Join(rsp[0], rsp[1]);
    }

    /** Reads its two-byte reply, least significant byte first. */
    method AnalogRead(pin: Octet, replies: seq<Arrivals>) returns (wire: seq<seq<Octet>>, value: int)
      modifies this
      ensures |wire| == Attempts(replies, maxRetry, 2)
      ensures forall i :: 0 <= i < |wire| ==> wire[i] == Encode(SerialMessages.AnalogRead(pin))
      ensures Answered(replies, maxRetry, 2) ==> |wire| > 0 && Replied(replies, |wire| - 1, 2)
      ensures 0 <= value < 0x1_0000
      ensures Answered(replies, maxRetry, 2) ==> Octets.LittleEndian(Got(replies[|wire| - 1]), value)
      ensures !Answered(replies, maxRetry, 2) ==> value == 0xFFFF
      ensures transactionSent == old(transactionSent) + |wire|
      ensures transactionReceived == old(transactionReceived) + if Answered(replies, maxRetry, 2) then 1 else 0
    {
      var request := [4, pin];
      wire := [];
      var i := 0;
      while i < maxRetry
        invariant 0 <= i && (i <= maxRetry || maxRetry <= 0 == i) && |wire| == i
        invariant forall k :: 0 <= k < |wire| ==> wire[k] == request
        invariant forall k :: 0 <= k < i ==> !Replied(replies, k, 2)
        invariant transactionSent == old(transactionSent) + i
        invariant transactionReceived == old(transactionReceived)
      {
        transactionSent := transactionSent + 1;
        wire := wire + [request];
        var ok;
        ok, value := RecvWord(if i < |replies| then replies[i] else []);
        if ok {
          AttemptsIs(replies, maxRetry, 2, i);
          return;
        }
        i := i + 1;
      }
      if maxRetry > 0 { NoAnswer(replies, maxRetry, 2); }
      return wire, 0xFFFF;
    }
  }

  /** A reply of `size` bytes came back during attempt `i`. */
  predicate Replied(replies: seq<Arrivals>, i: nat, size: nat) {
    i < |replies| && size <= |Got(replies[i])|
  }

  predicate Answered(replies: seq<Arrivals>, maxRetry: int, size: nat) {
    exists i :: 0 <= i < maxRetry && Replied(replies, i, size)
  }

  /** Attempts up to and including the first that is answered, at most `maxRetry`. */
  function Attempts(replies: seq<Arrivals>, maxRetry: int, size: nat): (n: nat)
    ensures maxRetry >= 0 ==> n <= maxRetry
    ensures maxRetry <= 0 ==> n == 0
  {
    if maxRetry <= 0 then 0
    else
      var n := Attempts(replies, maxRetry - 1, size);
      if n > 0 && Replied(replies, n - 1, size) then n else n + 1
  }

  lemma {:induction false} AttemptsIs(replies: seq<Arrivals>, maxRetry: int, size: nat, i: nat)
    requires i < maxRetry && Replied(replies, i, size)
    requires forall k :: 0 <= k < i ==> !Replied(replies, k, size)
    ensures Attempts(replies, maxRetry, size) == i + 1 && Answered(replies, maxRetry, size)
    decreases maxRetry
  {
    if maxRetry - 1 > i {
      AttemptsIs(replies, maxRetry - 1, size, i);
    } else if i > 0 {
      NoAnswer(replies, i, size);
    }
  }

  lemma {:induction false} NoAnswer(replies: seq<Arrivals>, maxRetry: int, size: nat)
    requires forall k :: 0 <= k < maxRetry ==> !Replied(replies, k, size)
    ensures maxRetry > 0 ==> Attempts(replies, maxRetry, size) == maxRetry
    decreases maxRetry
  {
    if maxRetry > 0 { NoAnswer(replies, maxRetry - 1, size); }
  }

  // ----- What the attempts do to the slave -----

  /** One attempt as the slave sees it: the part of the request that arrives, spread over loop passes,
      then a number of empty passes. */
  datatype Attempt = Attempt(inputs: seq<seq<Octet>>, gap: nat)

  /** What arrives is a prefix of the request, and it is not torn by a gap that resynchronises. */
  ghost predicate Prefix(a: Attempt, request: seq<Octet>) {
    && Concat(a.inputs) <= request
    && forall n :: 0 <= n <= |a.inputs| && TrailingEmpty(a.inputs[..n]) >= 274 ==>
         Concat(a.inputs[..n]) == [] || Concat(a.inputs[..n]) == request
  }

  predicate Whole(a: Attempt, request: seq<Octet>) {
    Concat(a.inputs) == request
  }

  /** The slave is between two messages afterwards: nothing or all of the request arrived, or the quiet
      passes that resynchronise it follow. The master polls for 52 ms after an attempt that it takes for
      failed, far longer than that. */
  predicate Settles(a: Attempt, request: seq<Octet>) {
    Concat(a.inputs) == [] || Whole(a, request) || a.gap > 274
  }

  ghost predicate Retried(attempts: seq<Attempt>, request: seq<Octet>) {
    attempts == [] ||
    (var last := attempts[|attempts| - 1];
     Prefix(last, request) && Settles(last, request) && Retried(attempts[..|attempts| - 1], request))
  }

  /** Attempts that were given up, then the last one: answered at once, or lost in its turn. */
  ghost predicate Attempted(attempts: seq<Attempt>, request: seq<Octet>) {
    attempts == [] ||
    (Prefix(attempts[|attempts| - 1], request) && Retried(attempts[..|attempts| - 1], request))
  }

  predicate SomeWhole(attempts: seq<Attempt>, request: seq<Octet>) {
    attempts != [] && (Whole(attempts[|attempts| - 1], request) || SomeWhole(attempts[..|attempts| - 1], request))
  }

  function Deliver(f: Framer, a: Attempt): (o: Outcome)
    requires Wf(f)
    ensures Wf(o.framer)
  {
    var o := Passes(f, a.inputs);
    var quiet := Passes(o.framer, Empties(a.gap));
    Outcome(quiet.framer, o.events + quiet.events)
  }

  function DeliverAll(f: Framer, attempts: seq<Attempt>): (o: Outcome)
    requires Wf(f)
    ensures Wf(o.framer)
    decreases |attempts|
  {
    if attempts == [] then Outcome(f, []) else
      var before := DeliverAll(f, attempts[..|attempts| - 1]);
      var o := Deliver(before.framer, attempts[|attempts| - 1]);
      Outcome(o.framer, before.events + o.events)
  }

  lemma PartialRequest(f: Framer, r: Request, part: seq<Octet>)
    requires Wf(f) && InSync(f) && r.PwmDuty? && InRange(r)
    requires part <= Encode(r) && part != Encode(r)
    ensures Bytes(f, part).events == []
  {
    if |part| == 1 {
      assert part == [6];
      BytesOne(f, part[0]);
    } else if |part| == 2 {
      assert part == [part[0], part[1]];
      BytesTwo(f, part[0], part[1]);
    }
  }

  lemma DeliverOne(f: Framer, r: Request, a: Attempt)
    requires Wf(f) && InSync(f) && r.PwmDuty? && InRange(r)
    requires Prefix(a, Encode(r))
    ensures Settles(a, Encode(r)) ==> InSync(Deliver(f, a).framer)
    ensures Deliver(f, a).events == if Whole(a, Encode(r)) then [Binary(r)] else []
  {
    OneRequest(f, r);
    forall n | 0 <= n <= |a.inputs| && TrailingEmpty(a.inputs[..n]) >= 274
      ensures InSync(Bytes(f, Concat(a.inputs[..n])).framer)
    {
    }
    PassesAreBytes(f, a.inputs);
    if !Whole(a, Encode(r)) { PartialRequest(f, r, Concat(a.inputs)); }
    QuietPasses(Passes(f, a.inputs).framer, a.gap);
  }

  lemma OneWrite(regs: Registers, r: Request)
    requires r.PwmDuty?
    ensures ApplyAll(regs, [Binary(r)]) == WriteDuty(regs, r.timer, r.channel, r.duty)
  {
    assert [Binary(r)][..0] == [];
  }

  lemma WriteTwice(regs: Registers, timer: Octet, channel: Octet, duty: Octet)
    ensures WriteDuty(WriteDuty(regs, timer, channel, duty), timer, channel, duty) ==
            WriteDuty(regs, timer, channel, duty)
  {
  }

  /** One more attempt, once the attempts before have been delivered; `some` of those arrived whole. */
  lemma AttemptWrites(before: Outcome, some: bool, regs: Registers, r: Request, a: Attempt)
    requires Wf(before.framer) && InSync(before.framer) && r.PwmDuty? && InRange(r) && Prefix(a, Encode(r))
    requires ApplyAll(regs, before.events) == if some then WriteDuty(regs, r.timer, r.channel, r.duty) else regs
    ensures Settles(a, Encode(r)) ==> InSync(Deliver(before.framer, a).framer)
    ensures ApplyAll(regs, before.events + Deliver(before.framer, a).events) ==
            if some || Whole(a, Encode(r)) then WriteDuty(regs, r.timer, r.channel, r.duty) else regs
  {
    DeliverOne(before.framer, r, a);
    OneWrite(ApplyAll(regs, before.events), r);
    ApplyAllAppend(regs, before.events, Deliver(before.framer, a).events);
    WriteTwice(regs, r.timer, r.channel, r.duty);
  }

  lemma {:induction false} RetriesWrite(f: Framer, regs: Registers, r: Request, attempts: seq<Attempt>)
    requires Wf(f) && InSync(f) && r.PwmDuty? && InRange(r)
    requires Retried(attempts, Encode(r))
    ensures InSync(DeliverAll(f, attempts).framer)
    ensures ApplyAll(regs, DeliverAll(f, attempts).events) ==
            if SomeWhole(attempts, Encode(r)) then WriteDuty(regs, r.timer, r.channel, r.duty) else regs
    decreases |attempts|
  {
    if attempts != [] {
      var front, last := attempts[..|attempts| - 1], attempts[|attempts| - 1];
      RetriesWrite(f, regs, r, front);
      AttemptWrites(DeliverAll(f, front), SomeWhole(front, Encode(r)), regs, r, last);
    }
  }

  /** Retrying is harmless. If each attempt that is followed by another one settles, the registers end as
      one direct `pwmDuty` leaves them if some attempt arrived whole, and as they were if none did; the
      slave is ready for the next request once the last attempt has settled too, which one that arrived
      whole does without any pause. */
  lemma RetryIsOneWrite(f: Framer, regs: Registers, r: Request, attempts: seq<Attempt>)
    requires Wf(f) && InSync(f) && r.PwmDuty? && InRange(r)
    requires Attempted(attempts, Encode(r))
    ensures ApplyAll(regs, DeliverAll(f, attempts).events) ==
            if SomeWhole(attempts, Encode(r)) then WriteDuty(regs, r.timer, r.channel, r.duty) else regs
    ensures attempts == [] || Settles(attempts[|attempts| - 1], Encode(r)) ==> InSync(DeliverAll(f, attempts).framer)
  {
    if attempts != [] {
      var front, last := attempts[..|attempts| - 1], attempts[|attempts| - 1];
      RetriesWrite(f, regs, r, front);
      AttemptWrites(DeliverAll(f, front), SomeWhole(front, Encode(r)), regs, r, last);
    }
  }
}
