/** End-to-end properties of the serial link: framing, resynchronisation, registers. */
module SerialProperties {
  import opened SerialMessages
  import opened SlaveFramer

  function Concat(inputs: seq<seq<Octet>>): seq<Octet> {
    if inputs == [] then [] else Concat(inputs[..|inputs| - 1]) + inputs[|inputs| - 1]
  }

  lemma {:induction false} BytesAppend(f: Framer, a: seq<Octet>, b: seq<Octet>)
    requires Wf(f)
    ensures Bytes(f, a + b).framer == Bytes(Bytes(f, a).framer, b).framer
    ensures Bytes(f, a + b).events == Bytes(f, a).events + Bytes(Bytes(f, a).framer, b).events
  {
    if b == [] {
      assert a + b == a;
    } else {
      BytesAppend(f, a, b[..|b| - 1]);
      assert (a + b)[..|a + b| - 1] == a + b[..|b| - 1];
      var before := Bytes(Bytes(f, a).framer, b[..|b| - 1]);
      EventsRegroup(Bytes(f, a).events, before.events, ByteStep(before.framer, b[|b| - 1]).events);
    }
  }

  lemma EventsRegroup(a: seq<Event>, b: seq<Event>, c: seq<Event>)
    ensures (a + b) + c == a + (b + c)
  {
  }

  // ----- Framing -----

  lemma BytesOne(f: Framer, b: Octet)
    requires Wf(f)
    ensures Bytes(f, [b]) == ByteStep(f, b)
  {
    assert [b][..0] == [];
    assert Bytes(f, []) == Outcome(f, []);
    assert [] + ByteStep(f, b).events == ByteStep(f, b).events;
  }

  lemma BytesTwo(f: Framer, b: Octet, c: Octet)
    requires Wf(f) && b < 7 && InSync(f) && MsgSize(b) > 1
    ensures Bytes(f, [b, c]) == ByteStep(ByteStep(f, b).framer, c)
  {
    BytesOne(f, b);
    assert [b, c][..1] == [b];
    var o := ByteStep(f, b);
    assert [] + ByteStep(o.framer, c).events == ByteStep(o.framer, c).events;
  }

  /** A single request, byte after byte from synchronisation, is dispatched once with its own fields. */
  lemma OneRequest(f: Framer, r: Request)
    requires Wf(f) && InSync(f) && InRange(r)
    ensures InSync(Bytes(f, Encode(r)).framer)
    ensures Bytes(f, Encode(r)).events == [Binary(r)]
  {
    RequestRoundTrip(r, f.data[|Encode(r)|..]);
    OneMessage(f, Encode(r));
  }

  lemma OneMessage(f: Framer, m: seq<Octet>)
    requires Wf(f) && InSync(f) && m != [] && m[0] < 7 && |m| == MsgSize(m[0])
    ensures InSync(Bytes(f, m).framer)
    ensures Bytes(f, m).events == [Binary(Decode(m + f.data[|m|..]))]
  {
    if |m| == 1 {
      assert m == [m[0]];
      BytesOne(f, m[0]);
      assert f.data[0 := m[0]] == m + f.data[1..];
    } else if |m| == 2 {
      TwoBytes(f, m);
    } else {
      ThreeBytes(f, m);
    }
  }

  lemma TwoBytes(f: Framer, m: seq<Octet>)
    requires Wf(f) && InSync(f) && |m| == 2 && m[0] < 7 && MsgSize(m[0]) == 2
    ensures InSync(Bytes(f, m).framer)
    ensures Bytes(f, m).events == [Binary(Decode(m + f.data[2..]))]
  {
    assert m == [m[0], m[1]];
    BytesTwo(f, m[0], m[1]);
    assert f.data[0 := m[0]][1 := m[1]] == m + f.data[2..];
  }

  lemma ThreeBytes(f: Framer, m: seq<Octet>)
    requires Wf(f) && InSync(f) && |m| == 3 && m[0] < 7 && MsgSize(m[0]) == 3
    ensures InSync(Bytes(f, m).framer)
    ensures Bytes(f, m).events == [Binary(Decode(m + f.data[3..]))]
  {
    BytesTwo(f, m[0], m[1]);
    assert m[..2] == [m[0], m[1]];
    var g := Bytes(f, m[..2]).framer;
    assert g.mode == WaitBody && g.expected == 1 && g.data == f.data[0 := m[0]][1 := m[1]];
    assert g.data[2 := m[2]] == m + f.data[3..];
    var o := ByteStep(g, m[2]);
    assert [] + o.events == o.events;
  }

  function Dispatched(rs: seq<Request>): seq<Event> {
    if rs == [] then [] else [Binary(rs[0])] + Dispatched(rs[1..])
  }

  predicate AllInRange(rs: seq<Request>) {
    rs == [] || (InRange(rs[0]) && AllInRange(rs[1..]))
  }

  lemma {:induction false} ManyRequests(f: Framer, rs: seq<Request>)
    requires Wf(f) && InSync(f) && AllInRange(rs)
    ensures InSync(Bytes(f, EncodeAll(rs)).framer)
    ensures Bytes(f, EncodeAll(rs)).events == Dispatched(rs)
    decreases |rs|
  {
    if rs != [] {
      OneRequest(f, rs[0]);
      BytesAppend(f, Encode(rs[0]), EncodeAll(rs[1..]));
      ManyRequests(Bytes(f, Encode(rs[0])).framer, rs[1..]);
    }
  }

  lemma {:induction false} AllInRangePrefix(rs: seq<Request>, k: nat)
    requires AllInRange(rs) && k <= |rs|
    ensures AllInRange(rs[..k])
  {
    if k > 0 {
      AllInRangePrefix(rs[1..], k - 1);
      assert rs[..k][1..] == rs[1..][..k - 1];
    }
  }

  // ----- Idle passes -----

  /** Empty passes at the end of `inputs`. */
  function TrailingEmpty(inputs: seq<seq<Octet>>): (n: nat)
    ensures n <= |inputs|
  {
    if inputs == [] || inputs[|inputs| - 1] != [] then 0 else 1 + TrailingEmpty(inputs[..|inputs| - 1])
  }

  lemma {:induction false} AllEmpty(inputs: seq<seq<Octet>>)
    requires TrailingEmpty(inputs) == |inputs|
    ensures Concat(inputs) == []
    decreases |inputs|
  {
    if inputs != [] { AllEmpty(inputs[..|inputs| - 1]); }
  }

  /** Whenever the passes so far end in as many empty ones as the resynchronisation needs, the bytes
      so far leave the framer between two messages. */
  ghost predicate QuietOnlyBetween(f: Framer, inputs: seq<seq<Octet>>)
    requires Wf(f)
  {
    forall n :: 0 <= n <= |inputs| && TrailingEmpty(inputs[..n]) >= 274 ==>
      InSync(Bytes(f, Concat(inputs[..n])).framer)
  }

  lemma QuietFront(f: Framer, inputs: seq<seq<Octet>>)
    requires Wf(f) && QuietOnlyBetween(f, inputs) && inputs != []
    ensures QuietOnlyBetween(f, inputs[..|inputs| - 1])
    ensures TrailingEmpty(inputs) >= 274 ==> InSync(Bytes(f, Concat(inputs)).framer)
  {
    var front := inputs[..|inputs| - 1];
    assert forall n :: 0 <= n <= |front| ==> front[..n] == inputs[..n];
    assert inputs[..|inputs|] == inputs;
  }

  /** Two framers that differ in the idle counter only. */
  predicate SameButIdle(f: Framer, g: Framer) {
    f == g.(idle := f.idle)
  }

  lemma {:induction false} BytesIgnoreIdle(f: Framer, g: Framer, bs: seq<Octet>)
    requires Wf(f) && Wf(g) && SameButIdle(f, g)
    ensures SameButIdle(Bytes(f, bs).framer, Bytes(g, bs).framer)
    ensures Bytes(f, bs).events == Bytes(g, bs).events
    ensures bs != [] ==> Bytes(f, bs).framer.idle == 0
  {
    if bs != [] {
      BytesIgnoreIdle(f, g, bs[..|bs| - 1]);
      ByteStepWf(Bytes(f, bs[..|bs| - 1]).framer, bs[|bs| - 1]);
    }
  }

  /** Splitting the bytes over loop passes changes nothing as long as the quiet gaps lie between messages. */
  lemma {:induction false} PassesAreBytes(f: Framer, inputs: seq<seq<Octet>>)
    requires Wf(f) && InSync(f) && QuietOnlyBetween(f, inputs)
    ensures SameButIdle(Passes(f, inputs).framer, Bytes(f, Concat(inputs)).framer)
    ensures Passes(f, inputs).events == Bytes(f, Concat(inputs)).events
    ensures TrailingEmpty(inputs) < |inputs| ==> Passes(f, inputs).framer.idle <= TrailingEmpty(inputs) + 1
    decreases |inputs|
  {
    if inputs == [] {
      assert Concat(inputs) == [];
    } else {
      var front, last := inputs[..|inputs| - 1], inputs[|inputs| - 1];
      QuietFront(f, inputs);
      PassesAreBytes(f, front);
      BytesAppend(f, Concat(front), last);
      var before, plain := Passes(f, front).framer, Bytes(f, Concat(front)).framer;
      BytesIgnoreIdle(before, plain, last);
      var g := Bytes(before, last).framer;
      if g.idle + 1 > IDLE_LIMIT {
        assert last == [];
        if TrailingEmpty(front) == |front| {
          AllEmpty(front);
        }
      }
    }
  }

  // ----- Main results -----

  /** Every gap of 274 or more empty passes starts where a whole number of requests has been sent. */
  ghost predicate Timely(inputs: seq<seq<Octet>>, rs: seq<Request>) {
    forall n :: 0 <= n <= |inputs| && TrailingEmpty(inputs[..n]) >= 274 ==>
      exists k :: 0 <= k <= |rs| && Concat(inputs[..n]) == EncodeAll(rs[..k])
  }

  /** Whatever way the bytes of a list of requests reach the loop, the slave dispatches exactly those
      requests in order and ends up synchronised. */
  lemma EndToEnd(f: Framer, inputs: seq<seq<Octet>>, rs: seq<Request>)
    requires Wf(f) && InSync(f) && AllInRange(rs)
    requires Concat(inputs) == EncodeAll(rs) && Timely(inputs, rs)
    ensures InSync(Passes(f, inputs).framer)
    ensures Passes(f, inputs).events == Dispatched(rs)
  {
    forall n | 0 <= n <= |inputs| && TrailingEmpty(inputs[..n]) >= 274
      ensures InSync(Bytes(f, Concat(inputs[..n])).framer)
    {
      var k :| 0 <= k <= |rs| && Concat(inputs[..n]) == EncodeAll(rs[..k]);
      AllInRangePrefix(rs, k);
      ManyRequests(f, rs[..k]);
    }
    PassesAreBytes(f, inputs);
    ManyRequests(f, rs);
  }

  /** The registers after direct calls of `pwmDuty` for the duty requests of the list. */
  function DirectDuties(regs: Registers, rs: seq<Request>): Registers
    decreases |rs|
  {
    if rs == [] then regs else
      DirectDuties(
        if rs[0].PwmDuty? then WriteDuty(regs, rs[0].timer, rs[0].channel, rs[0].duty) else regs, rs[1..])
  }

  lemma {:induction false} DispatchedRegisters(regs: Registers, rs: seq<Request>)
    ensures ApplyAll(regs, Dispatched(rs)) == DirectDuties(regs, rs)
    decreases |rs|
  {
    if rs != [] {
      var first := [Binary(rs[0])];
      ApplyAllAppend(regs, first, Dispatched(rs[1..]));
      assert first[..0] == [];
      assert ApplyAll(regs, first) == Apply(regs, Binary(rs[0]));
      DispatchedRegisters(ApplyAll(regs, first), rs[1..]);
    }
  }

  /** The duty of the last request for a channel of a timer, if there is one. */
  function LastDuty(rs: seq<Request>, timer: Octet, channel: Octet, initial: Octet): Octet
    decreases |rs|
  {
    if rs == [] then initial else
      var last := rs[|rs| - 1];
      if last.PwmDuty? && last.timer == timer && last.channel == channel then last.duty
      else LastDuty(rs[..|rs| - 1], timer, channel, initial)
  }

  lemma {:induction false} LastDutyTail(rs: seq<Request>, timer: Octet, channel: Octet, initial: Octet)
    requires rs != []
    ensures LastDuty(rs, timer, channel, initial) ==
            LastDuty(rs[1..], timer, channel, LastDuty(rs[..1], timer, channel, initial))
    decreases |rs|
  {
    if |rs| > 1 {
      var front := rs[..|rs| - 1];
      LastDutyTail(front, timer, channel, initial);
      assert front[..1] == rs[..1] && front[1..] == rs[1..][..|rs[1..]| - 1];
    } else {
      assert rs[..1] == rs;
    }
  }

  lemma {:induction false} DirectIsLast(regs: Registers, rs: seq<Request>, timer: Octet, channel: Octet)
    requires AllInRange(rs) && timer < 3 && channel < 2
    ensures Register(DirectDuties(regs, rs), timer, channel) ==
            LastDuty(rs, timer, channel, Register(regs, timer, channel))
    decreases |rs|
  {
    if rs != [] {
      var r := rs[0];
      var next := if r.PwmDuty? then WriteDuty(regs, r.timer, r.channel, r.duty) else regs;
      if r.PwmDuty? { WriteDutySets(regs, r.timer, r.channel, r.duty, timer, channel); }
      assert rs[..1][..0] == [];
      DirectIsLast(next, rs[1..], timer, channel);
      LastDutyTail(rs, timer, channel, Register(regs, timer, channel));
    }
  }

  /** The remote link refines direct register writes: each of the six registers ends with the duty of the
      last request for it. */
  lemma EndToEndRegisters(f: Framer, regs: Registers, inputs: seq<seq<Octet>>, rs: seq<Request>)
    requires Wf(f) && InSync(f) && AllInRange(rs)
    requires Concat(inputs) == EncodeAll(rs) && Timely(inputs, rs)
    ensures ApplyAll(regs, Passes(f, inputs).events) == DirectDuties(regs, rs)
    ensures forall t: Octet, c: Octet :: t < 3 && c < 2 ==>
              Register(ApplyAll(regs, Passes(f, inputs).events), t, c) == LastDuty(rs, t, c, Register(regs, t, c))
  {
    EndToEnd(f, inputs, rs);
    DispatchedRegisters(regs, rs);
    forall t: Octet, c: Octet | t < 3 && c < 2
      ensures Register(DirectDuties(regs, rs), t, c) == LastDuty(rs, t, c, Register(regs, t, c))
    {
      DirectIsLast(regs, rs, t, c);
    }
  }

  // ----- Text messages -----

  predicate NoDelimiter(text: seq<Octet>) {
    text == [] || (text[|text| - 1] != 59 && NoDelimiter(text[..|text| - 1]))
  }

  lemma TextByte(f: Framer, b: Octet)
    requires Wf(f) && f.mode == WaitTextBody && b != 59 && f.idx + 1 < BUFFER_SIZE
    ensures ByteStep(f, b) == Outcome(f.(data := f.data[f.idx := b], idx := f.idx + 1, idle := 0), [])
  {
  }

  lemma Stored(data: seq<Octet>, text: seq<Octet>)
    requires text != [] && |text| <= |data| && data[..|text| - 1] == text[..|text| - 1]
    ensures data[|text| - 1 := text[|text| - 1]][..|text|] == text
  {
  }

  lemma {:induction false} TextArrives(f: Framer, text: seq<Octet>)
    requires Wf(f) && InSync(f) && text != [] && text[0] >= 7 && NoDelimiter(text[1..]) && |text| < BUFFER_SIZE
    ensures var o := Bytes(f, text);
            && o.events == [] && o.framer.mode == WaitTextBody && o.framer.idx == |text|
            && o.framer.data[..|text|] == text
    decreases |text|
  {
    if |text| == 1 {
      assert text == [text[0]];
      BytesOne(f, text[0]);
      Stored(f.data, text);
    } else {
      var front, last := text[..|text| - 1], text[|text| - 1];
      FrontText(text);
      TextArrives(f, front);
      var before := Bytes(f, front);
      TextByte(before.framer, last);
      Stored(before.framer.data, text);
      BytesThenOne(f, front, last);
      LastOf(text);
    }
  }

  lemma LastOf(text: seq<Octet>)
    requires text != []
    ensures text[..|text| - 1] + [text[|text| - 1]] == text
  {
  }

  lemma FrontText(text: seq<Octet>)
    requires |text| > 1 && NoDelimiter(text[1..])
    ensures NoDelimiter(text[..|text| - 1][1..]) && text[|text| - 1] != 59
  {
    assert text[..|text| - 1][1..] == text[1..][..|text[1..]| - 1];
  }

  lemma BytesThenOne(f: Framer, bs: seq<Octet>, b: Octet)
    requires Wf(f)
    ensures var o := ByteStep(Bytes(f, bs).framer, b);
            Bytes(f, bs + [b]) == Outcome(o.framer, Bytes(f, bs).events + o.events)
  {
    assert (bs + [b])[..|bs|] == bs;
  }

  /** A message that starts with none of the seven types is text up to the delimiter: it is dispatched once,
      with the delimiter and a terminating zero, as long as that fits the buffer. */
  lemma TextMessage(f: Framer, text: seq<Octet>)
    requires Wf(f) && InSync(f) && text != [] && text[0] >= 7 && NoDelimiter(text[1..]) && |text| + 2 <= BUFFER_SIZE
    ensures var o := Bytes(f, text + [59]);
            && InSync(o.framer) && |o.events| == 1 && o.events[0].Text?
            && |o.events[0].buffer| == BUFFER_SIZE && o.events[0].buffer[..|text| + 2] == text + [59, 0]
  {
    TextArrives(f, text);
    BytesThenOne(f, text, 59);
    var o := Bytes(f, text);
    TextEnds(o.framer, text);
    assert o.events == [];
  }

  lemma TextEnds(f: Framer, text: seq<Octet>)
    requires Wf(f) && f.mode == WaitTextBody && f.idx == |text| && f.data[..|text|] == text
    requires |text| + 2 <= BUFFER_SIZE
    ensures var o := ByteStep(f, 59);
            && InSync(o.framer) && |o.events| == 1 && o.events[0].Text?
            && |o.events[0].buffer| == BUFFER_SIZE && o.events[0].buffer[..|text| + 2] == text + [59, 0]
  {
  }

  function Empties(n: nat): (e: seq<seq<Octet>>)
    ensures |e| == n
  {
    seq(n, _ => [])
  }

  /** `n` empty passes leave a framer untouched but for the counter, or synchronised once the counter
      has passed the limit; nothing is dispatched either way. */
  lemma {:induction false} QuietPasses(f: Framer, n: nat)
    requires Wf(f)
    ensures Passes(f, Empties(n)).events == []
    ensures f.idle + n <= IDLE_LIMIT ==> Passes(f, Empties(n)).framer == f.(idle := f.idle + n)
    ensures f.idle + n > IDLE_LIMIT || InSync(f) ==> InSync(Passes(f, Empties(n)).framer)
    decreases n
  {
    if n > 0 {
      QuietPasses(f, n - 1);
      assert Empties(n)[..n - 1] == Empties(n - 1);
      var g := Passes(f, Empties(n - 1)).framer;
      assert Pass(g, []) == Outcome(Idle(g), []);
    }
  }

  /** From any state of the framer, 275 empty passes bring it back to the start of a message, and an
      unsynchronised framer gets there exactly when its counter exceeds the limit. */
  lemma Resync(f: Framer, n: nat)
    requires Wf(f)
    ensures n >= 275 ==> InSync(Passes(f, Empties(n)).framer)
    ensures !InSync(f) ==> (InSync(Passes(f, Empties(n)).framer) <==> f.idle + n > 274)
  {
    QuietPasses(f, n);
  }
}
