/** The rover's event handlers: joystick to H-bridge duties, and the watchdog that stops the motors. */
module Watchdog {
  import opened SlaveFramer

  /** `TIMER_CI_WDT` of app.hpp. */
  const WDT_LIMIT := 500

  datatype Event =
    | Joystick(leftY: int, rightY: int)
    | Timer
    | Led(percent: nat)

  /** `ocr` are the slave's registers, as `pwmDuty` calls that get through leave them. */
  datatype App = App(wdt: nat, leftPwm: nat, rightPwm: nat, ocr: Registers)

  datatype Write = Write(timer: bv8, channel: bv8, duty: bv8)

  /** abs(y) / 500 * PWM_RANGE * thr_limit, converted to unsigned; thr_limit stays 1. */
  function Speed(y: int, pwmRange: nat): nat {
    (if y < 0 then -y else y) * pwmRange / 500
  }

  /** The conversion to the uint8_t parameter of `pwmDuty`. */
  function Duty(x: nat): bv8 {
    (x % 256) as bv8
  }

  /** The four calls of `handle_js`, in order. */
  function JoystickWrites(leftY: int, rightY: int, pwmRange: nat): (ws: seq<Write>)
    ensures |ws| == 4
  {
    BridgeWrites(leftY > 0, Duty(Speed(leftY, pwmRange)), rightY > 0, Duty(Speed(rightY, pwmRange)))
  }

  function BridgeWrites(leftFwd: bool, left: bv8, rightFwd: bool, right: bv8): (ws: seq<Write>)
    ensures |ws| == 4
  {
    [Write(2, 1, if leftFwd then left else 0), Write(0, 1, if leftFwd then 0 else left),
     Write(0, 0, if rightFwd then 0 else right), Write(1, 0, if rightFwd then right else 0)]
  }

  /** The four calls of the watchdog. */
  function StopWrites(): seq<Write> {
    [Write(2, 1, 0), Write(0, 1, 0), Write(0, 0, 0), Write(1, 0, 0)]
  }

  function Issue(r: Registers, ws: seq<Write>): Registers
    decreases |ws|
  {
    if ws == [] then r else
      var last := ws[|ws| - 1];
      WriteDuty(Issue(r, ws[..|ws| - 1]), last.timer, last.channel, last.duty)
  }

  function Step(a: App, e: Event, pwmRange: nat): App {
    match e
    case Joystick(leftY, rightY) =>
      App(0, Speed(leftY, pwmRange), Speed(rightY, pwmRange), Issue(a.ocr, JoystickWrites(leftY, rightY, pwmRange)))
    case Timer =>
      if WDT_LIMIT <= a.wdt + 1 then a.(wdt := 0, ocr := Issue(a.ocr, StopWrites()))
      else a.(wdt := a.wdt + 1)
    case Led(percent) => a.(ocr := Issue(a.ocr, [Write(1, 1, Duty(percent * 255 / 100))]))
  }

  function Run(a: App, es: seq<Event>, pwmRange: nat): App
    decreases |es|
  {
    if es == [] then a else Run(Step(a, es[0], pwmRange), es[1..], pwmRange)
  }

  /** Inputs A, B of the left bridge and C, D of the right one: at most one of a pair is driven. */
  predicate Safe(r: Registers) {
    (r.b2 == 0 || r.b0 == 0) && (r.a0 == 0 || r.a1 == 0)
  }

  predicate Stopped(r: Registers) {
    r.b2 == 0 && r.b0 == 0 && r.a0 == 0 && r.a1 == 0
  }

  predicate SameMotors(r: Registers, s: Registers) {
    r.b2 == s.b2 && r.b0 == s.b0 && r.a0 == s.a0 && r.a1 == s.a1
  }

  // ----- Properties -----

  function Abs(y: int): nat {
    if y < 0 then -y else y
  }

  lemma IssueStep(r: Registers, ws: seq<Write>, k: nat)
    requires k < |ws|
    ensures Issue(r, ws[..k + 1]) == WriteDuty(Issue(r, ws[..k]), ws[k].timer, ws[k].channel, ws[k].duty)
  {
    assert ws[..k + 1][..k] == ws[..k];
  }

  lemma IssueFour(r: Registers, ws: seq<Write>)
    requires |ws| == 4
    ensures var r1 := WriteDuty(r, ws[0].timer, ws[0].channel, ws[0].duty);
            var r2 := WriteDuty(r1, ws[1].timer, ws[1].channel, ws[1].duty);
            var r3 := WriteDuty(r2, ws[2].timer, ws[2].channel, ws[2].duty);
            && Issue(r, ws[..0]) == r && Issue(r, ws[..1]) == r1 && Issue(r, ws[..2]) == r2
            && Issue(r, ws[..3]) == r3 && ws[..4] == ws
            && Issue(r, ws) == WriteDuty(r3, ws[3].timer, ws[3].channel, ws[3].duty)
  {
    IssueStep(r, ws, 0);
    IssueStep(r, ws, 1);
    IssueStep(r, ws, 2);
    IssueStep(r, ws, 3);
    assert ws[..4] == ws;
  }

  /** Where a joystick event leaves the registers, in terms of the two duties. */
  lemma JoystickRegisters(a: App, leftY: int, rightY: int, pwmRange: nat)
    ensures var r := Step(a, Joystick(leftY, rightY), pwmRange).ocr;
            var left, right := Duty(Speed(leftY, pwmRange)), Duty(Speed(rightY, pwmRange));
            && (r.b2, r.b0) == (if leftY > 0 then (left, 0) else (0, left))
            && (r.a0, r.a1) == (if rightY > 0 then (0, right) else (right, 0))
            && r.b1 == a.ocr.b1 && r.a2 == a.ocr.a2
  {
    IssueFour(a.ocr, JoystickWrites(leftY, rightY, pwmRange));
  }

  /** The share |y| / 500 of the PWM range, rounded down. */
  predicate IsShare(x: nat, y: int, pwmRange: nat) {
    500 * x <= Abs(y) * pwmRange < 500 * (x + 1)
  }

  /** A register holds it. */
  ghost predicate Carries(duty: bv8, y: int, pwmRange: nat) {
    exists d: nat :: d < 256 && IsShare(d, y, pwmRange) && duty == d as bv8
  }

  lemma DivBounds(x: nat)
    ensures 500 * (x / 500) <= x < 500 * (x / 500 + 1)
    ensures x / 500 < 256 <==> x < 128000
  {
  }

  /** The duty is the share of the range if and only if that fits the register; otherwise it wraps. */
  lemma DutyCarries(y: int, pwmRange: nat)
    ensures Carries(Duty(Speed(y, pwmRange)), y, pwmRange) <==> Abs(y) * pwmRange < 128000
  {
    var x := Abs(y) * pwmRange;
    DivBounds(x);
    if x < 128000 {
      assert IsShare(x / 500, y, pwmRange) && Duty(x / 500) == (x / 500) as bv8;
    } else {
      forall d: nat | IsShare(d, y, pwmRange)
        ensures d >= 256
      {
      }
    }
  }

  /** Sticks move within [-500, 500]: a range of 255 never wraps. */
  lemma StickFits(y: int, pwmRange: nat)
    requires Abs(y) <= 500 && pwmRange <= 255
    ensures Abs(y) * pwmRange < 128000
  {
    MulMonotone(Abs(y), 500, pwmRange);
  }

  lemma MulMonotone(a: nat, b: nat, c: nat)
    requires a <= b
    ensures a * c <= b * c
  {
  }

  lemma FullDeflection(duty: bv8, y: int, pwmRange: nat)
    requires Carries(duty, y, pwmRange) && Abs(y) == 500
    ensures pwmRange < 256 ==> duty == pwmRange as bv8
  {
  }

  /** What a joystick event does to the six registers, for any stick positions and PWM range. Of each bridge
      the side asked for carries the share |y| / 500 of the range, unless that does not fit a register, and
      the other side 0; a stick within its range of 500 fits any range up to 255, and at full deflection
      gives exactly the range. The LED and the unused channel stay as they are. The speeds noted are the shares,
      and the watchdog starts again. */
  lemma JoystickEffect(a: App, leftY: int, rightY: int, pwmRange: nat)
    ensures var r := Step(a, Joystick(leftY, rightY), pwmRange).ocr;
            var left, right := if leftY > 0 then r.b2 else r.b0, if rightY > 0 then r.a1 else r.a0;
            && (if leftY > 0 then r.b0 else r.b2) == 0 && (if rightY > 0 then r.a0 else r.a1) == 0
            && r.b1 == a.ocr.b1 && r.a2 == a.ocr.a2
            && (Carries(left, leftY, pwmRange) <==> Abs(leftY) * pwmRange < 128000)
            && (Carries(right, rightY, pwmRange) <==> Abs(rightY) * pwmRange < 128000)
            && (Abs(leftY) <= 500 && pwmRange <= 255 ==> Carries(left, leftY, pwmRange))
            && (Abs(rightY) <= 500 && pwmRange <= 255 ==> Carries(right, rightY, pwmRange))
            && (Abs(leftY) == 500 && pwmRange <= 255 ==> left == pwmRange as bv8)
            && (Abs(rightY) == 500 && pwmRange <= 255 ==> right == pwmRange as bv8)
    ensures var b := Step(a, Joystick(leftY, rightY), pwmRange);
            b.wdt == 0 && IsShare(b.leftPwm, leftY, pwmRange) && IsShare(b.rightPwm, rightY, pwmRange)
  {
    JoystickRegisters(a, leftY, rightY, pwmRange);
    DivBounds(Abs(leftY) * pwmRange);
    DivBounds(Abs(rightY) * pwmRange);
    StickCarries(leftY, pwmRange);
    StickCarries(rightY, pwmRange);
  }

  lemma StickCarries(y: int, pwmRange: nat)
    ensures var duty := Duty(Speed(y, pwmRange));
            && (Carries(duty, y, pwmRange) <==> Abs(y) * pwmRange < 128000)
            && (Abs(y) <= 500 && pwmRange <= 255 ==> Carries(duty, y, pwmRange))
            && (Abs(y) == 500 && pwmRange <= 255 ==> duty == pwmRange as bv8)
  {
    DutyCarries(y, pwmRange);
    if Abs(y) <= 500 && pwmRange <= 255 {
      StickFits(y, pwmRange);
      if Abs(y) == 500 { FullDeflection(Duty(Speed(y, pwmRange)), y, pwmRange); }
    }
  }

  lemma StopEffect(r: Registers)
    ensures Stopped(Issue(r, StopWrites()))
  {
    IssueFour(r, StopWrites());
  }

  lemma LedRegisters(r: Registers, duty: bv8)
    ensures Issue(r, [Write(1, 1, duty)]) == r.(b1 := duty)
  {
    IssueStep(r, [Write(1, 1, duty)], 0);
    assert [Write(1, 1, duty)][..1] == [Write(1, 1, duty)];
  }

  /** That percentage of 255, rounded down. */
  predicate IsPercent(d: nat, percent: nat) {
    d < 256 && 100 * d <= 255 * percent < 100 * (d + 1)
  }

  /** The LED command sets channel B of timer 1 to its percentage of 255, rounded down, and nothing else. */
  lemma LedEffect(a: App, percent: nat, pwmRange: nat)
    requires percent <= 100
    ensures var b := Step(a, Led(percent), pwmRange);
            && b == a.(ocr := a.ocr.(b1 := b.ocr.b1))
            && exists d: nat :: IsPercent(d, percent) && b.ocr.b1 == d as bv8
  {
    LedRegisters(a.ocr, Duty(percent * 255 / 100));
    assert IsPercent(percent * 255 / 100, percent);
  }

  /** At every handler boundary of every run each bridge has at most one driven input, and the
      watchdog counter stays below its limit. */
  lemma {:induction false} AlwaysSafe(a: App, es: seq<Event>, pwmRange: nat)
    requires Safe(a.ocr) && a.wdt < 500
    ensures Safe(Run(a, es, pwmRange).ocr) && Run(a, es, pwmRange).wdt < 500
    decreases |es|
  {
    if es != [] {
      match es[0] {
        case Joystick(l, r) => JoystickRegisters(a, l, r, pwmRange);
        case Timer => StopEffect(a.ocr);
        case Led(p) => LedRegisters(a.ocr, Duty(p * 255 / 100));
      }
      AlwaysSafe(Step(a, es[0], pwmRange), es[1..], pwmRange);
    }
  }

  function Ticks(es: seq<Event>): nat {
    if es == [] then 0 else (if es[0].Timer? then 1 else 0) + Ticks(es[1..])
  }

  predicate NoJoystick(es: seq<Event>) {
    es == [] || (!es[0].Joystick? && NoJoystick(es[1..]))
  }

  /** Without joystick events the motors keep running until exactly the tick at which the counter
      reaches 500, and from that tick on they stand still. The speeds stay noted. */
  lemma {:induction false} WatchdogStops(a: App, es: seq<Event>, pwmRange: nat)
    requires a.wdt < 500 && NoJoystick(es)
    ensures Run(a, es, pwmRange).leftPwm == a.leftPwm && Run(a, es, pwmRange).rightPwm == a.rightPwm
    ensures var r := Run(a, es, pwmRange).ocr;
            if Ticks(es) >= 500 - a.wdt || Stopped(a.ocr) then Stopped(r) else SameMotors(r, a.ocr)
    decreases |es|
  {
    if es != [] {
      var b := Step(a, es[0], pwmRange);
      WatchdogStops(b, es[1..], pwmRange);
      if es[0].Timer? {
        StopEffect(a.ocr);
      } else {
        LedRegisters(a.ocr, Duty(es[0].percent * 255 / 100));
      }
    }
  }

  lemma {:induction false} RunAppend(a: App, es: seq<Event>, fs: seq<Event>, pwmRange: nat)
    ensures Run(a, es + fs, pwmRange) == Run(Run(a, es, pwmRange), fs, pwmRange)
    decreases |es|
  {
    if es == [] {
      assert es + fs == fs;
    } else {
      assert (es + fs)[1..] == es[1..] + fs;
      RunAppend(Step(a, es[0], pwmRange), es[1..], fs, pwmRange);
    }
  }

  lemma {:induction false} CounterBelowLimit(a: App, es: seq<Event>, pwmRange: nat)
    requires a.wdt < 500
    ensures Run(a, es, pwmRange).wdt < 500
    decreases |es|
  {
    if es != [] { CounterBelowLimit(Step(a, es[0], pwmRange), es[1..], pwmRange); }
  }

  /** After any history, any stretch without joystick events and with at least 500 ticks ends with all
      four motor duties at zero. */
  lemma SilenceStopsMotors(a: App, history: seq<Event>, silence: seq<Event>, pwmRange: nat)
    requires a.wdt < 500
    requires NoJoystick(silence) && Ticks(silence) >= 500
    ensures Stopped(Run(a, history + silence, pwmRange).ocr)
  {
    CounterBelowLimit(a, history, pwmRange);
    RunAppend(a, history, silence, pwmRange);
    WatchdogStops(Run(a, history, pwmRange), silence, pwmRange);
  }

  /** Between the calls of one handler a bridge can have both inputs driven: exactly when a reversal
      drives the new side before it releases the old one, left to forward or right to backward. */
  lemma ReversalTransient(r: Registers, leftY: int, rightY: int, pwmRange: nat, k: nat)
    requires Safe(r) && k <= 4
    ensures var ws := JoystickWrites(leftY, rightY, pwmRange);
            !Safe(Issue(r, ws[..k])) <==>
              || (k == 1 && leftY > 0 && (Abs(leftY) * pwmRange / 500 % 256) as bv8 != 0 && r.b0 != 0)
              || (k == 3 && rightY <= 0 && (Abs(rightY) * pwmRange / 500 % 256) as bv8 != 0 && r.a1 != 0)
  {
    BridgeTransient(r, leftY > 0, Duty(Speed(leftY, pwmRange)), rightY > 0, Duty(Speed(rightY, pwmRange)), k);
  }

  lemma BridgeTransient(r: Registers, leftFwd: bool, left: bv8, rightFwd: bool, right: bv8, k: nat)
    requires Safe(r) && k <= 4
    ensures !Safe(Issue(r, BridgeWrites(leftFwd, left, rightFwd, right)[..k])) <==>
              (k == 1 && leftFwd && left != 0 && r.b0 != 0) || (k == 3 && !rightFwd && right != 0 && r.a1 != 0)
  {
    var ws := BridgeWrites(leftFwd, left, rightFwd, right);
    IssueFour(r, ws);
    if k == 0 {
      assert Issue(r, ws[..k]) == r;
    } else if k == 4 {
      assert ws[..k] == ws;
    }
  }

  // ----- The program -----

  class MainApp {
    const pwmRange: nat
    var timerCxWdt: nat
    var leftPwm: nat
    var rightPwm: nat
    var ocr: Registers

    constructor (pwmRange: nat, initial: Registers)
      ensures this.pwmRange == pwmRange && View() == App(0, 0, 0, initial)
    {
      this.pwmRange := pwmRange;
      timerCxWdt, leftPwm, rightPwm := 0, 0, 0;
      ocr := initial;
    }

    ghost function View(): App
      reads this
    {
      App(timerCxWdt, leftPwm, rightPwm, ocr)
    }

    method PwmDuty(timer: bv8, channel: bv8, duty: bv8)
      modifies this`ocr
      ensures ocr == WriteDuty(old(ocr), timer, channel, duty)
    {
      ocr := WriteDuty(ocr, timer, channel, duty);
    }

    method HandleJs(leftY: int, rightY: int)
      modifies this
      ensures View() == Step(old(View()), Joystick(leftY, rightY), pwmRange)
    {
      IssueFour(ocr, JoystickWrites(leftY, rightY, pwmRange));
      timerCxWdt := 0;
      leftPwm := Speed(leftY, pwmRange);
      rightPwm := Speed(rightY, pwmRange);
      if leftY > 0 {
        PwmDuty(2, 1, Duty(leftPwm));
        PwmDuty(0, 1, 0);
      } else {
        PwmDuty(2, 1, 0);
        PwmDuty(0, 1, Duty(leftPwm));
      }
      if rightY > 0 {
        PwmDuty(0, 0, 0);
        PwmDuty(1, 0, Duty(rightPwm));
      } else {
        PwmDuty(0, 0, Duty(rightPwm));
        PwmDuty(1, 0, 0);
      }
    }

    method HandleTimer()
      modifies this
      ensures View() == Step(old(View()), Timer, pwmRange)
    {
      IssueFour(ocr, StopWrites());
      timerCxWdt := timerCxWdt + 1;
      if WDT_LIMIT <= timerCxWdt {
        PwmDuty(2, 1, 0);
        PwmDuty(0, 1, 0);
        PwmDuty(0, 0, 0);
        PwmDuty(1, 0, 0);
        timerCxWdt := 0;
      }
    }
  }
}
