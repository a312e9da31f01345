/**
 * The side effects the control loop and the command handler hand to foreign code,
 * recorded as values: GPIO level writes, MCPWM operator calls and MQTT publications.
 * GPIO writes and MCPWM calls come with a small interpreter that says what the outputs are
 * after a sequence of calls, so that properties can be stated about the final output levels;
 * a publication is only a record of what was handed to the MQTT client.
 */
module Outputs {

  // ---------------------------------------------------------------- GPIO

  /** A GPIO output line. The indicator LEDs have fixed pin numbers; the pin of the
      Bluetooth-status LED (LED_BT) is defined in bt.c, which is not part of this model. */
  datatype Pin = Gpio(number: nat) | BtLed

  const LED_0: Pin := Gpio(19)
  const LED_1: Pin := Gpio(18)
  const LED_2: Pin := Gpio(5)

  /** One call of gpio_set_level. */
  datatype GpioWrite = SetLevel(pin: Pin, level: int)

  /** The level each pin was last driven to. */
  type Levels = map<Pin, int>

  /** The levels after the writes are performed in order. */
  function ApplyWrites(levels: Levels, writes: seq<GpioWrite>): (r: Levels)
    ensures r.Keys == levels.Keys + set w | w in writes :: w.pin
    decreases |writes|
  {
    if writes == [] then levels
    else
      var r := ApplyWrites(levels[writes[0].pin := writes[0].level], writes[1..]);
      assert forall w :: w in writes <==> w == writes[0] || w in writes[1..];
      r
  }

  /** A pin that a write sequence drives ends at the level of the LAST write to it. */
  lemma {:induction false} LastWriteWins(levels: Levels, writes: seq<GpioWrite>, i: nat)
    requires i < |writes|
    requires forall j :: i < j < |writes| ==> writes[j].pin != writes[i].pin
    ensures ApplyWrites(levels, writes)[writes[i].pin] == writes[i].level
    decreases |writes|
  {
    var next := levels[writes[0].pin := writes[0].level];
    if i == 0 {
      UnwrittenUnchanged(next, writes[1..], writes[0].pin);
    } else {
      forall j | i - 1 < j < |writes[1..]|
        ensures writes[1..][j].pin != writes[1..][i - 1].pin
      {
        assert writes[1..][j] == writes[j + 1];
      }
      LastWriteWins(next, writes[1..], i - 1);
    }
  }

  /** Three writes are three map updates in order. */
  lemma ApplyThreeWrites(levels: Levels, writes: seq<GpioWrite>)
    requires |writes| == 3
    ensures ApplyWrites(levels, writes)
      == levels[writes[0].pin := writes[0].level][writes[1].pin := writes[1].level][writes[2].pin := writes[2].level]
  {
    var l1 := levels[writes[0].pin := writes[0].level];
    var l2 := l1[writes[1].pin := writes[1].level];
    var l3 := l2[writes[2].pin := writes[2].level];
    assert writes[1..][1..] == [writes[2]] && [writes[2]][1..] == [];
    assert ApplyWrites(levels, writes) == ApplyWrites(l1, writes[1..]);
    assert ApplyWrites(l1, writes[1..]) == ApplyWrites(l2, [writes[2]]);
    assert ApplyWrites(l2, [writes[2]]) == ApplyWrites(l3, []);
  }

  /** A pin that no write mentions keeps its level. */
  lemma {:induction false} UnwrittenUnchanged(levels: Levels, writes: seq<GpioWrite>, p: Pin)
    requires p in levels
    requires forall j :: 0 <= j < |writes| ==> writes[j].pin != p
    ensures ApplyWrites(levels, writes)[p] == levels[p]
    decreases |writes|
  {
    if writes != [] {
      var next := levels[writes[0].pin := writes[0].level];
      forall j | 0 <= j < |writes[1..]| ensures writes[1..][j].pin != p {
        assert writes[1..][j] == writes[j + 1];
      }
      UnwrittenUnchanged(next, writes[1..], p);
    }
  }

  // ---------------------------------------------------------------- MCPWM

  /** The two generator operators of MCPWM unit 0, timer 0, which drive the H-bridge. */
  datatype Operator = OperatorA | OperatorB

  /** MCPWM_DUTY_MODE_0 is active high, MCPWM_DUTY_MODE_1 active low. */
  datatype DutyMode = ActiveHigh | ActiveLow

  /** One call of the MCPWM driver on unit 0, timer 0. */
  datatype PwmCall =
    | SetSignalLow(op: Operator)
    | SetDuty(op: Operator, duty: real)
    | SetDutyType(op: Operator, mode: DutyMode)

  /** An operator remembers its duty and mode; mcpwm_set_signal_low forces its output low
      until mcpwm_set_duty_type restores pulsed output (the reason the source calls
      mcpwm_set_duty_type after every mcpwm_set_duty). */
  datatype OperatorState = OperatorState(duty: real, mode: DutyMode, forcedLow: bool)

  datatype Bridge = Bridge(a: OperatorState, b: OperatorState)

  /** What an operator drives onto its pin. */
  datatype Signal = Low | Pulsed(duty: real, mode: DutyMode)

  function Output(s: OperatorState): Signal {
    if s.forcedLow then Low else Pulsed(s.duty, s.mode)
  }

  function ApplyToOperator(s: OperatorState, call: PwmCall): OperatorState {
    match call
    case SetSignalLow(_) => s.(forcedLow := true)
    case SetDuty(_, d) => s.(duty := d)
    case SetDutyType(_, m) => s.(mode := m, forcedLow := false)
  }

  function ApplyCall(b: Bridge, call: PwmCall): Bridge {
    if call.op == OperatorA then b.(a := ApplyToOperator(b.a, call))
    else b.(b := ApplyToOperator(b.b, call))
  }

  function ApplyCalls(b: Bridge, calls: seq<PwmCall>): Bridge
    decreases |calls|
  {
    if calls == [] then b else ApplyCalls(ApplyCall(b, calls[0]), calls[1..])
  }

  /** brushed_motor_forward: operator B continuously low, operator A pulsed at the duty. */
  function BrushedMotorForward(dutyCycle: real): seq<PwmCall> {
    [SetSignalLow(OperatorB), SetDuty(OperatorA, dutyCycle), SetDutyType(OperatorA, ActiveHigh)]
  }

  /** brushed_motor_stop: both operators continuously low. */
  function BrushedMotorStop(): seq<PwmCall> {
    [SetSignalLow(OperatorA), SetSignalLow(OperatorB)]
  }

  /** Whatever the bridge did before, driving forward leaves B low and A pulsing
      active-high at exactly the requested duty. */
  lemma ForwardDrivesOperatorA(b: Bridge, dutyCycle: real)
    ensures Output(ApplyCalls(b, BrushedMotorForward(dutyCycle)).a) == Pulsed(dutyCycle, ActiveHigh)
    ensures Output(ApplyCalls(b, BrushedMotorForward(dutyCycle)).b) == Low
  {
    var calls := BrushedMotorForward(dutyCycle);
    var b1 := ApplyCall(b, calls[0]);
    var b2 := ApplyCall(b1, calls[1]);
    var b3 := ApplyCall(b2, calls[2]);
    assert ApplyCalls(b, calls) == ApplyCalls(b1, calls[1..]);
    assert calls[1..][1..] == [calls[2]] && [calls[2]][1..] == [];
    assert ApplyCalls(b1, calls[1..]) == ApplyCalls(b2, [calls[2]]);
    assert ApplyCalls(b2, [calls[2]]) == ApplyCalls(b3, []);
  }

  /** Whatever the bridge did before, stopping leaves both operators low. */
  lemma StopHaltsBridge(b: Bridge)
    ensures Output(ApplyCalls(b, BrushedMotorStop()).a) == Low
    ensures Output(ApplyCalls(b, BrushedMotorStop()).b) == Low
  {
    var calls := BrushedMotorStop();
    var b1 := ApplyCall(b, calls[0]);
    assert calls[1..] == [calls[1]] && [calls[1]][1..] == [];
    assert ApplyCalls(b, calls) == ApplyCall(b1, calls[1]);
  }

  // ---------------------------------------------------------------- MQTT

  /** One call of esp_mqtt_client_publish with the payload it was given. */
  datatype Publication<P> = Publication(topic: string, payload: P, qos: nat, retain: bool)

  /** Every publish in the core uses QoS 1 and retain 0. */
  const QOS: nat := 1
  const RETAIN: bool := false
}
