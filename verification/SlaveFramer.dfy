/** The slave's receive loop as a state machine over bytes and loop passes. */
module SlaveFramer {
  import opened SerialMessages

  datatype Mode = WaitBody | WaitType | WaitTextBody

  const BUFFER_SIZE := 256
  const TEXT_DELIMITER: Octet := 59
  /** More empty passes than this (about 2 ms) resynchronise the framer. */
  const IDLE_LIMIT := 274

  /** The globals of main.cpp that `loop` works on; `expected` is the number of body bytes to come. */
  datatype Framer = Framer(data: seq<Octet>, idx: nat, mode: Mode, expected: nat, idle: nat)

  datatype Event = Binary(request: Request) | Text(buffer: seq<Octet>)

  datatype Outcome = Outcome(framer: Framer, events: seq<Event>)

  /** Waiting for the first byte of a message. */
  predicate InSync(f: Framer) {
    f.mode == WaitType && f.idx == 0
  }

  /** The framing invariant: inside a binary message the bytes seen and the bytes expected add up
      to the size of its type. */
  predicate Wf(f: Framer) {
    && |f.data| == BUFFER_SIZE && f.idx < BUFFER_SIZE && f.idle <= IDLE_LIMIT
    && (f.mode == WaitType ==> f.idx == 0)
    && (f.mode == WaitBody ==>
          && f.data[0] < 7 && 1 <= f.idx && 1 <= f.expected
          && f.idx + f.expected == MsgSize(f.data[0]))
  }

  /** One turn of the inner loop: `b` has been read. The index is a uint8_t. */
  function ByteStep(f: Framer, b: Octet): Outcome
    requires Wf(f)
  {
    var data := f.data[f.idx := b];
    var g := f.(data := data, idx := (f.idx + 1) % BUFFER_SIZE, idle := 0);
    match f.mode
    case WaitType =>
      if b < 7 then
        if MsgSize(b) == 1 then Outcome(g.(idx := 0, expected := 0), [Binary(Decode(data))])
        else Outcome(g.(mode := WaitBody, expected := MsgSize(b) - 1), [])
      else Outcome(g.(mode := WaitTextBody), [])
    case WaitBody =>
      if f.expected == 1 then Outcome(g.(idx := 0, mode := WaitType, expected := 0), [Binary(Decode(data))])
      else Outcome(g.(expected := f.expected - 1), [])
    case WaitTextBody =>
      if b == TEXT_DELIMITER then
        var closed := data[g.idx := 0];
        Outcome(g.(data := closed, idx := 0, mode := WaitType), [Text(closed)])
      else Outcome(g, [])
  }

  lemma ByteStepWf(f: Framer, b: Octet)
    requires Wf(f)
    ensures Wf(ByteStep(f, b).framer) && ByteStep(f, b).framer.idle == 0
  {
  }

  function Bytes(f: Framer, bs: seq<Octet>): (o: Outcome)
    requires Wf(f)
    ensures Wf(o.framer)
    decreases |bs|
  {
    if bs == [] then Outcome(f, []) else
      var before := Bytes(f, bs[..|bs| - 1]);
      ByteStepWf(before.framer, bs[|bs| - 1]);
      var after := ByteStep(before.framer, bs[|bs| - 1]);
      Outcome(after.framer, before.events + after.events)
  }

  /** What happens when no byte is left: the idle counter, and the resynchronisation. */
  function Idle(f: Framer): Framer {
    if f.idle + 1 > IDLE_LIMIT then f.(idle := 0, mode := WaitType, idx := 0) else f.(idle := f.idle + 1)
  }

  /** One call of `loop` that finds the bytes `input` available. */
  function Pass(f: Framer, input: seq<Octet>): (o: Outcome)
    requires Wf(f)
    ensures Wf(o.framer)
  {
    var o := Bytes(f, input);
    o.(framer := Idle(o.framer))
  }

  function Passes(f: Framer, inputs: seq<seq<Octet>>): (o: Outcome)
    requires Wf(f)
    ensures Wf(o.framer)
    decreases |inputs|
  {
    if inputs == [] then Outcome(f, []) else
      var before := Passes(f, inputs[..|inputs| - 1]);
      var after := Pass(before.framer, inputs[|inputs| - 1]);
      Outcome(after.framer, before.events + after.events)
  }

  // ----- Registers -----

  datatype Registers = Registers(a0: Octet, b0: Octet, a1: Octet, b1: Octet, a2: Octet, b2: Octet)

  /** `pwmDuty` of the slave: any channel but 0 is B, timers above 2 are ignored. */
  function WriteDuty(r: Registers, timer: Octet, channel: Octet, duty: Octet): Registers {
    if timer == 0 then if channel == 0 then r.(a0 := duty) else r.(b0 := duty)
    else if timer == 1 then if channel == 0 then r.(a1 := duty) else r.(b1 := duty)
    else if timer == 2 then if channel == 0 then r.(a2 := duty) else r.(b2 := duty)
    else r
  }

  /** The register of a timer and one of its channels: 0 is A, 1 is B. */
  function Register(r: Registers, timer: Octet, channel: Octet): Octet
    requires timer < 3 && channel < 2
  {
    match (timer, channel)
    case (0, 0) => r.a0
    case (0, _) => r.b0
    case (1, 0) => r.a1
    case (1, _) => r.b1
    case (_, 0) => r.a2
    case (_, _) => r.b2
  }

  /** All six registers after one call. */
  lemma WriteDutySets(r: Registers, timer: Octet, channel: Octet, duty: Octet, t: Octet, c: Octet)
    requires t < 3 && c < 2
    ensures Register(WriteDuty(r, timer, channel, duty), t, c) ==
            if t == timer && (c == 0 <==> channel == 0) then duty else Register(r, t, c)
  {
    if c != 0 { assert c == 1; }
  }

  /** The effect of a dispatched binary request on the output-compare registers. */
  function Apply(r: Registers, e: Event): Registers {
    match e
    case Binary(PwmDuty(timer, channel, duty)) => WriteDuty(r, timer, channel, duty)
    case _ => r
  }

  function ApplyAll(r: Registers, es: seq<Event>): Registers {
    if es == [] then r else Apply(ApplyAll(r, es[..|es| - 1]), es[|es| - 1])
  }

  lemma {:induction false} ApplyAllAppend(r: Registers, a: seq<Event>, b: seq<Event>)
    ensures ApplyAll(r, a + b) == ApplyAll(ApplyAll(r, a), b)
  {
    if b == [] {
      assert a + b == a;
    } else {
      ApplyAllAppend(r, a, b[..|b| - 1]);
      assert (a + b)[..|a + b| - 1] == a + b[..|b| - 1];
    }
  }

  // ----- The program -----

  /** main.cpp: the receive buffer is an array, the counters are globals. */
  class Slave {
    var serialData: array<Octet>
    var serialDataIdx: nat
    var serialState: Mode
    var expectedSize: nat
    var serialIdleCount: nat
    var ocr: Registers

    ghost predicate Valid()
      reads this, serialData
    {
      Wf(View())
    }

    ghost function View(): Framer
      reads this, serialData
    {
      Framer(serialData[..], serialDataIdx, serialState, expectedSize, serialIdleCount)
    }

    /** `setup`; the registers keep whatever the hardware holds. */
    constructor (initial: Registers)
      ensures Valid() && fresh(serialData) && InSync(View()) && ocr == initial
    {
      serialData := new Octet[BUFFER_SIZE](_ => 0);
      serialDataIdx, serialIdleCount, expectedSize := 0, 0, 0;
      serialState := WaitType;
      ocr := initial;
    }

    method ProcessMessage() returns (event: Event)
      requires serialData.Length == BUFFER_SIZE && serialData[0] < 7
      modifies this`ocr
      ensures event == Binary(Decode(serialData[..]))
      ensures ocr == Apply(old(ocr), event)
    {
      var request := Decode(serialData[..]);
      match request {
        case PwmDuty(timer, channel, duty) => ocr := WriteDuty(ocr, timer, channel, duty);
        case _ =>
      }
      event := Binary(request);
    }

    /** The last byte of a binary message has been stored. */
    method CompleteMessage() returns (events: seq<Event>)
      requires serialData.Length == BUFFER_SIZE && serialData[0] < 7
      modifies this`ocr, this`serialState, this`serialDataIdx
      ensures events == [Binary(Decode(serialData[..]))] && ocr == ApplyAll(old(ocr), events)
      ensures serialState == WaitType && serialDataIdx == 0
    {
      var event := ProcessMessage();
      serialState := WaitType;
      serialDataIdx := 0;
      events := [event];
      assert events[..0] == [];
    }

    method ReceiveByte(rb: Octet) returns (events: seq<Event>)
      requires Valid()
      modifies this, serialData
      ensures Valid() && serialData == old(serialData)
      ensures Outcome(View(), events) == ByteStep(old(View()), rb)
      ensures ocr == ApplyAll(old(ocr), events)
    {
      ByteStepWf(View(), rb);
      events := [];
      serialIdleCount := 0;
      serialData[serialDataIdx] := rb;
      serialDataIdx := (serialDataIdx + 1) % BUFFER_SIZE;
      if serialState == WaitType {
        if rb < 7 {
          expectedSize := MsgSize(rb) - 1;
          if expectedSize == 0 {
            events := CompleteMessage();
            return;
          }
          serialState := WaitBody;
        } else {
          serialState := WaitTextBody;
        }
        return;
      }
      if serialState == WaitBody {
        expectedSize := expectedSize - 1;
        if expectedSize == 0 {
          events := CompleteMessage();
        }
        return;
      }
      if rb == TEXT_DELIMITER {
        serialData[serialDataIdx] := 0;
        events := [Text(serialData[..])];
        serialState := WaitType;
        serialDataIdx := 0;
      }
    }

    /** One call of `loop` during which exactly the bytes `input` become available. */
    method Loop(input: seq<Octet>) returns (events: seq<Event>)
      requires Valid()
      modifies this, serialData
      ensures Valid() && serialData == old(serialData)
      ensures Outcome(View(), events) == Pass(old(View()), input)
      ensures ocr == ApplyAll(old(ocr), events)
    {
      events := [];
      var read := 0;
      assert input[..0] == [];
      while read < |input|
        invariant 0 <= read <= |input|
        invariant Valid() && serialData == old(serialData)
        invariant Outcome(View(), events) == Bytes(old(View()), input[..read])
        invariant ocr == ApplyAll(old(ocr), events)
      {
        var more := ReceiveByte(input[read]);
        assert input[..read + 1][..read] == input[..read];
        ApplyAllAppend(old(ocr), events, more);
        events := events + more;
        read := read + 1;
      }
      assert input[..read] == input;
      serialIdleCount := serialIdleCount + 1;
      if serialIdleCount > IDLE_LIMIT {
        serialIdleCount := 0;
        serialState := WaitType;
        serialDataIdx := 0;
      }
    }
  }
}
