/** Requests of the serial link: their layouts, as the master packs them and the slave unpacks them. */
module SerialMessages {

  type Octet = bv8

  /** messages.hpp `set_param`: the value is shifted in, not masked. */
  function SetParam(value: Octet, field: Octet, mask: Octet, shift: bv8): Octet
    requires shift < 8
  {
    (field & !mask) | (value << shift)
  }

  /** messages.hpp `get_param`. */
  function GetParam(field: Octet, mask: Octet, shift: bv8): Octet
    requires shift < 8
  {
    (field & mask) >> shift
  }

  datatype Request =
    | LogInfo
    | PinMode(pin: Octet, mode: Octet)
    | DigitalWrite(wpin: Octet, value: Octet)
    | DigitalRead(rpin: Octet)
    | AnalogRead(apin: Octet)
    | PwmInit(itimer: Octet, ichannel: Octet, prescale: Octet)
    | PwmDuty(timer: Octet, channel: Octet, duty: Octet)

  /** Every argument fits its bit field. */
  predicate InRange(r: Request) {
    match r
    case LogInfo => true
    case PinMode(pin, mode) => pin < 64 && mode < 4
    case DigitalWrite(pin, value) => pin < 64 && value < 4
    case DigitalRead(_) => true
    case AnalogRead(_) => true
    case PwmInit(timer, channel, prescale) => timer < 4 && channel < 2 && prescale < 8
    case PwmDuty(timer, channel, _) => timer < 4 && channel < 2
  }

  /** The table `msg_size_by_type`. */
  function MsgSize(kind: Octet): (n: nat)
    requires kind < 7
    ensures 1 <= n <= 3
  {
    if kind == 0 then 1 else if kind == 6 then 3 else 2
  }

  function Encode(r: Request): seq<Octet> {
    match r
    case LogInfo => [0]
    case PinMode(pin, mode) =>
      [1, SetParam(mode, SetParam(pin, 0, 0x3F, 0), 0xC0, 6)]
    case DigitalWrite(pin, value) =>
      [2, SetParam(value, SetParam(pin, 0, 0x3F, 0), 0xC0, 6)]
    case DigitalRead(pin) => [3, pin]
    case AnalogRead(pin) => [4, pin]
    case PwmInit(timer, channel, prescale) =>
      [5, SetParam(prescale, SetParam(channel, SetParam(timer, 0, 0x06, 1), 0x01, 0), 0x38, 3)]
    case PwmDuty(timer, channel, duty) =>
      [6, SetParam(channel, SetParam(timer, 0, 0x06, 1), 0x01, 0), duty]
  }

  /** What `process_message` reads out of the buffer; it is only called on the seven known types. */
  function Decode(data: seq<Octet>): Request
    requires |data| >= 3 && data[0] < 7
  {
    if data[0] == 0 then LogInfo
    else if data[0] == 1 then PinMode(GetParam(data[1], 0x3F, 0), GetParam(data[1], 0xC0, 6))
    else if data[0] == 2 then DigitalWrite(GetParam(data[1], 0x3F, 0), GetParam(data[1], 0xC0, 6))
    else if data[0] == 3 then DigitalRead(data[1])
    else if data[0] == 4 then AnalogRead(data[1])
    else if data[0] == 5 then
      PwmInit(GetParam(data[1], 0x06, 1), GetParam(data[1], 0x01, 0), GetParam(data[1], 0x38, 3))
    else PwmDuty(GetParam(data[1], 0x06, 1), GetParam(data[1], 0x01, 0), data[2])
  }

  /** What the bytes of an in-range request are as numbers: the fields lie side by side in the second byte. */
  lemma WireLayout(r: Request)
    requires InRange(r)
    ensures Encode(r) ==
            match r
            case LogInfo => [0]
            case PinMode(pin, mode) => [1, 64 * mode + pin]
            case DigitalWrite(pin, value) => [2, 64 * value + pin]
            case DigitalRead(pin) => [3, pin]
            case AnalogRead(pin) => [4, pin]
            case PwmInit(timer, channel, prescale) => [5, 8 * prescale + 2 * timer + channel]
            case PwmDuty(timer, channel, duty) => [6, 2 * timer + channel, duty]
  {
    match r
    case PinMode(pin, mode) => SideBySide(mode, pin);
    case DigitalWrite(pin, value) => SideBySide(value, pin);
    case PwmInit(timer, channel, prescale) => TimerFields(timer, channel, prescale);
    case PwmDuty(timer, channel, _) => TimerFields(timer, channel, 0);
    case _ =>
  }

  lemma SideBySide(hi: Octet, lo: Octet)
    requires hi < 4 && lo < 64
    ensures SetParam(hi, SetParam(lo, 0, 0x3F, 0), 0xC0, 6) == 64 * hi + lo
  {
  }

  lemma TimerFields(timer: Octet, channel: Octet, prescale: Octet)
    requires timer < 4 && channel < 2 && prescale < 8
    ensures var field := SetParam(channel, SetParam(timer, 0, 0x06, 1), 0x01, 0);
            field == 2 * timer + channel && SetParam(prescale, field, 0x38, 3) == 8 * prescale + 2 * timer + channel
  {
  }

  function EncodeAll(rs: seq<Request>): seq<Octet> {
    if rs == [] then [] else Encode(rs[0]) + EncodeAll(rs[1..])
  }

  lemma FieldsRoundTrip(hi: Octet, lo: Octet)
    ensures hi < 4 && lo < 64 <==>
            && GetParam(SetParam(hi, SetParam(lo, 0, 0x3F, 0), 0xC0, 6), 0x3F, 0) == lo
            && GetParam(SetParam(hi, SetParam(lo, 0, 0x3F, 0), 0xC0, 6), 0xC0, 6) == hi
  {
  }

  lemma TimerRoundTrip(timer: Octet, channel: Octet)
    ensures var field := SetParam(channel, SetParam(timer, 0, 0x06, 1), 0x01, 0);
            timer < 4 && channel < 2 <==> GetParam(field, 0x06, 1) == timer && GetParam(field, 0x01, 0) == channel
  {
  }

  lemma PrescaleRoundTrip(timer: Octet, channel: Octet, prescale: Octet)
    ensures var field := SetParam(prescale, SetParam(channel, SetParam(timer, 0, 0x06, 1), 0x01, 0), 0x38, 3);
            timer < 4 && channel < 2 && prescale < 8 <==>
            && GetParam(field, 0x06, 1) == timer && GetParam(field, 0x01, 0) == channel
            && GetParam(field, 0x38, 3) == prescale
  {
  }

  /** The slave reads back the arguments of the master if and only if each fits its field:
      `set_param` lets the bits of a larger value into its neighbours. */
  lemma RequestRoundTrip(r: Request, rest: seq<Octet>)
    requires |Encode(r) + rest| >= 3
    ensures Encode(r)[0] < 7 && |Encode(r)| == MsgSize(Encode(r)[0])
    ensures Decode(Encode(r) + rest) == r <==> InRange(r)
  {
    match r
    case PinMode(pin, mode) => FieldsRoundTrip(mode, pin);
    case DigitalWrite(pin, value) => FieldsRoundTrip(value, pin);
    case PwmInit(timer, channel, prescale) => PrescaleRoundTrip(timer, channel, prescale);
    case PwmDuty(timer, channel, _) => TimerRoundTrip(timer, channel);
    case _ =>
  }
}
