/**
 * The periodic control task (get_task): each iteration samples the sensor, derives the
 * temperature, drives the indicator LEDs and the fan motor, and publishes one telemetry
 * record; after 300 iterations the task restarts the device.
 *
 * The task's endless loop is modelled over a finite stream of per-iteration inputs: what the
 * clock, the ADC and the shared ledbt_status global supply to one iteration. Its outputs are
 * recorded as values (GPIO writes, MCPWM calls, the published record, the string handed to
 * check_alarm). The restart is an outcome flag: after it nothing further is produced.
 */
module ControlLoop {
  import opened Outputs
  import opened Sensor
  import opened ModeSelector

  /** The restart policy's bound on iterations per task run. */
  const RESTART_AFTER: nat := 300

  const TELEMETRY_TOPIC: string := "/mofuban/wannalog"

  /** What one iteration reads from outside: the local time formatted with "%c" (for the
      record) and with "%H.%M" (for the alarm check), the 64 raw conversions, and the value
      of the shared ledbt_status global at the moment the record is built. */
  datatype CycleInput = CycleInput(clockText: string, alarmClock: string, raw: Samples, ledbt: int)

  /** The fields of the JSON telemetry message, in the order they are printed. */
  datatype Telemetry = Telemetry(
    save: int, adc: nat, opamp: real, lm35: real, temp: real,
    led: string, time: string, speed: real, ledbt: int)

  /** Everything one iteration hands to foreign code. */
  datatype CycleOutput = CycleOutput(
    alarmCheck: string,
    indicator: seq<GpioWrite>,
    motor: seq<PwmCall>,
    publish: Publication<Telemetry>)

  /** One iteration of the loop body, from the clock read to the publish, given the current
      value of `save` and the ADC calibration (esp_adc_cal_raw_to_voltage with the
      characteristics measured at startup). */
  function Cycle(input: CycleInput, save: int, calibrate: nat -> nat): CycleOutput {
    var adc := Reading(input.raw);
    var c := Convert(calibrate(adc));
    var colour := SelectColour(c.celsius);
    var record := Telemetry(save, adc, c.voltage, c.lm35v, c.celsius, Label(colour),
                            input.clockText, FanSpeed(c.celsius), input.ledbt);
    CycleOutput(input.alarmClock, IndicatorWrites(colour), MotorCalls(c.celsius),
                Publication(TELEMETRY_TOPIC, record, QOS, RETAIN))
  }

  /** get_task. The locals x (iterations so far) and save (the one-shot first-record flag)
      live across iterations; the restart check comes before x is incremented, so 300
      iterations complete and the 301st restarts the device. */
  method GetTask(inputs: seq<CycleInput>, calibrate: nat -> nat)
    returns (trace: seq<CycleOutput>, restarted: bool)
    ensures restarted <==> |inputs| > RESTART_AFTER
    ensures |trace| == if restarted then RESTART_AFTER else |inputs|
    ensures forall i :: 0 <= i < |trace| ==>
      trace[i] == Cycle(inputs[i], if i == 0 then 1 else 0, calibrate)
    ensures forall i :: 0 <= i < |trace| ==>
      trace[i].publish.payload.save == (if i == 0 then 1 else 0)
  {
    var x := 0;
    var save := 1;
    trace := [];
    restarted := false;
    var i := 0;
    while i < |inputs|
      invariant 0 <= i <= |inputs|
      invariant x == i <= RESTART_AFTER
      invariant save == if i == 0 then 1 else 0
      invariant |trace| == i
      invariant forall k :: 0 <= k < i ==>
        trace[k] == Cycle(inputs[k], if k == 0 then 1 else 0, calibrate)
    {
      if x == RESTART_AFTER {
        restarted := true;
        break;
      }
      x := x + 1;
      var input := inputs[i];
      var alarmCheck := input.alarmClock;
      var adcReading := SampleAdc(input.raw);
      var c := Convert(calibrate(adcReading));
      var colour := SelectColour(c.celsius);
      var indicator := IndicatorWrites(colour);
      var speed := FanSpeed(c.celsius);
      var motor := MotorCalls(c.celsius);
      var record := Telemetry(save, adcReading, c.voltage, c.lm35v, c.celsius, Label(colour),
                              input.clockText, speed, input.ledbt);
      save := 0;
      trace := trace + [CycleOutput(alarmCheck, indicator, motor,
                                    Publication(TELEMETRY_TOPIC, record, QOS, RETAIN))];
      i := i + 1;
    }
  }

  /** The published record is consistent with itself and with the hardware outputs: the
      temperature is a twentieth of the calibrated millivolts, the label names the colour
      the LEDs show, exactly that one LED is lit, and the motor runs at the reported speed. */
  lemma CycleConsistent(input: CycleInput, save: int, calibrate: nat -> nat, levels: Levels, b: Bridge)
    ensures var out := Cycle(input, save, calibrate);
      var r := out.publish.payload;
      var colour := SelectColour(r.temp);
      var leds := ApplyWrites(levels, out.indicator);
      var bridge := ApplyCalls(b, out.motor);
      && r.save == save
      && r.adc == Reading(input.raw)
      && r.opamp == calibrate(r.adc) as real && r.temp * 20.0 == r.opamp
      && r.led == Label(colour)
      && leds[LitLed(colour)] == 1
      && (forall p :: p in {LED_0, LED_1, LED_2} && p != LitLed(colour) ==> leds[p] == 0)
      && 0.0 <= r.speed <= 100.0
      && Output(bridge.b) == Low
      && Output(bridge.a) == (if r.speed == 0.0 then Low else Pulsed(r.speed, ActiveHigh))
      && out.publish.topic == TELEMETRY_TOPIC
  {
    var out := Cycle(input, save, calibrate);
    var colour := SelectColour(out.publish.payload.temp);
    IndicatorExclusive(levels, colour);
    MotorOutputs(b, out.publish.payload.temp);
  }

  /** In millivolts: the indicator is blue below 500 mV, green from 500 to 600 mV and red
      above; the fan is off up to 500 mV and at full speed from 700 mV. */
  lemma ThresholdsInMillivolts(millivolts: nat)
    ensures var t := Convert(millivolts).celsius;
      && (SelectColour(t) == Blue <==> millivolts < 500)
      && (SelectColour(t) == Green <==> 500 <= millivolts <= 600)
      && (SelectColour(t) == Red <==> 600 < millivolts)
      && (FanSpeed(t) == 0.0 <==> millivolts <= 500)
      && (FanSpeed(t) == 100.0 <==> 700 <= millivolts)
  {
    var t := Convert(millivolts).celsius;
    assert t * 20.0 == millivolts as real;
  }

  /** Three iterations whose calibrated voltages give 20, 28 and 40 degrees show blue, green
      and red, run the fan at 0, 30 and 100 per cent, and mark only the first record. */
  lemma ThreeIterations(inputs: seq<CycleInput>, calibrate: nat -> nat, trace: seq<CycleOutput>)
    requires |inputs| == 3
    requires calibrate(Reading(inputs[0].raw)) == 400
    requires calibrate(Reading(inputs[1].raw)) == 560
    requires calibrate(Reading(inputs[2].raw)) == 800
    requires |trace| == 3
    requires forall i :: 0 <= i < 3 ==> trace[i] == Cycle(inputs[i], if i == 0 then 1 else 0, calibrate)
    ensures [trace[0].publish.payload.led, trace[1].publish.payload.led, trace[2].publish.payload.led]
      == ["BLUE", "GREEN", "RED"]
    ensures [trace[0].publish.payload.speed, trace[1].publish.payload.speed, trace[2].publish.payload.speed]
      == [0.0, 30.0, 100.0]
    ensures [trace[0].publish.payload.temp, trace[1].publish.payload.temp, trace[2].publish.payload.temp]
      == [20.0, 28.0, 40.0]
    ensures [trace[0].publish.payload.save, trace[1].publish.payload.save, trace[2].publish.payload.save]
      == [1, 0, 0]
  {
  }
}
