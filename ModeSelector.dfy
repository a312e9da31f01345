/**
 * The decisions the control loop takes from one temperature: the indicator colour with
 * the LED writes that show it, and the fan speed with the MCPWM calls that apply it.
 * The two threshold chains are independent: the indicator switches at 25 and 30 degrees,
 * the fan ramps between 25 and 35 degrees.
 */
module ModeSelector {
  import opened Outputs

  datatype Colour = Blue | Green | Red

  /** The indicator chain: below 25 is blue, 25 up to and including 30 is green, above is red. */
  function SelectColour(celsius: real): (colour: Colour)
    ensures colour == Blue <==> celsius < 25.0
    ensures colour == Green <==> 25.0 <= celsius <= 30.0
    ensures colour == Red <==> 30.0 < celsius
  {
    if celsius < 25.0 then Blue
    else if celsius <= 30.0 then Green
    else Red
  }

  /** Colours in order of temperature. */
  function Rank(colour: Colour): nat {
    match colour
    case Blue => 0
    case Green => 1
    case Red => 2
  }

  /** A warmer reading never selects a cooler colour. */
  lemma SelectColourMonotone(t1: real, t2: real)
    requires t1 <= t2
    ensures Rank(SelectColour(t1)) <= Rank(SelectColour(t2))
  {
  }

  /** The text written into the 10-byte `color` buffer and sent as the "led" field. */
  function Label(colour: Colour): (s: string)
    ensures 0 < |s| < 10
  {
    match colour
    case Blue => "BLUE"
    case Green => "GREEN"
    case Red => "RED"
  }

  /** Distinct colours have distinct labels, so the telemetry label identifies the colour. */
  lemma LabelInjective(c1: Colour, c2: Colour)
    requires Label(c1) == Label(c2)
    ensures c1 == c2
  {
  }

  /** The LED that shows a colour: LED_2 blue, LED_1 green, LED_0 red. */
  function LitLed(colour: Colour): Pin {
    match colour
    case Blue => LED_2
    case Green => LED_1
    case Red => LED_0
  }

  /** The three gpio_set_level calls of a branch of the indicator chain, in source order. */
  function IndicatorWrites(colour: Colour): seq<GpioWrite> {
    match colour
    case Blue => [SetLevel(LED_0, 0), SetLevel(LED_1, 0), SetLevel(LED_2, 1)]
    case Green => [SetLevel(LED_0, 0), SetLevel(LED_1, 1), SetLevel(LED_2, 0)]
    case Red => [SetLevel(LED_0, 1), SetLevel(LED_1, 0), SetLevel(LED_2, 0)]
  }

  /** Whatever the LEDs showed before, after the writes of a colour exactly one of the three
      indicator LEDs is at level 1, it is the colour's LED, the other two are at 0, and no
      other pin changed. */
  lemma IndicatorExclusive(levels: Levels, colour: Colour)
    ensures var r := ApplyWrites(levels, IndicatorWrites(colour));
      && r[LED_0] == (if LitLed(colour) == LED_0 then 1 else 0)
      && r[LED_1] == (if LitLed(colour) == LED_1 then 1 else 0)
      && r[LED_2] == (if LitLed(colour) == LED_2 then 1 else 0)
      && (forall p :: p in levels && p != LED_0 && p != LED_1 && p != LED_2 ==> r[p] == levels[p])
  {
    var w := IndicatorWrites(colour);
    LastWriteWins(levels, w, 0);
    LastWriteWins(levels, w, 1);
    LastWriteWins(levels, w, 2);
    forall p | p in levels && p != LED_0 && p != LED_1 && p != LED_2
      ensures ApplyWrites(levels, w)[p] == levels[p]
    {
      UnwrittenUnchanged(levels, w, p);
    }
  }

  /** Repeating the writes of the same colour changes nothing more: the indicator state
      depends only on the last colour applied. */
  lemma IndicatorIdempotent(levels: Levels, colour: Colour)
    ensures var once := ApplyWrites(levels, IndicatorWrites(colour));
      ApplyWrites(once, IndicatorWrites(colour)) == once
  {
    var w := IndicatorWrites(colour);
    var once := ApplyWrites(levels, w);
    ApplyThreeWrites(levels, w);
    ApplyThreeWrites(once, w);
  }

  /** The fan-speed chain, as a duty percentage. */
  function FanSpeed(celsius: real): (speed: real)
    ensures 0.0 <= speed <= 100.0
    ensures speed == 0.0 <==> celsius <= 25.0
    ensures speed == 100.0 <==> 35.0 <= celsius
  {
    if celsius <= 25.0 then 0.0
    else if celsius > 25.0 && celsius <= 35.0 then (celsius - 25.0) * 10.0
    else 100.0
  }

  /** The speed never decreases as the temperature rises. */
  lemma FanSpeedMonotone(t1: real, t2: real)
    requires t1 <= t2
    ensures FanSpeed(t1) <= FanSpeed(t2)
  {
  }

  /** Every duty strictly between 0 and 100 is reached at exactly one temperature inside the
      ramp, 25 degrees plus a tenth of the duty: the ramp is ten percent per degree. */
  lemma FanSpeedRampInverse(speed: real, celsius: real)
    requires 0.0 < speed < 100.0
    ensures FanSpeed(celsius) == speed <==> celsius == 25.0 + speed / 10.0
  {
  }

  /** The MCPWM calls of a branch of the fan-speed chain. */
  function MotorCalls(celsius: real): seq<PwmCall> {
    if celsius <= 25.0 then BrushedMotorStop()
    else if celsius > 25.0 && celsius <= 35.0 then BrushedMotorForward((celsius - 25.0) * 10.0)
    else BrushedMotorForward(100.0)
  }

  /** The motor is stopped exactly when the reported speed is 0; otherwise it is driven
      forward at the reported speed, which then lies in (0, 100]. */
  lemma MotorFollowsSpeed(celsius: real)
    ensures FanSpeed(celsius) == 0.0 ==> MotorCalls(celsius) == BrushedMotorStop()
    ensures FanSpeed(celsius) != 0.0 ==> MotorCalls(celsius) == BrushedMotorForward(FanSpeed(celsius))
  {
  }

  /** On the bridge: operator B always ends low, and operator A ends low when the speed is 0
      and pulsing active-high at the speed otherwise. */
  lemma MotorOutputs(b: Bridge, celsius: real)
    ensures var after := ApplyCalls(b, MotorCalls(celsius));
      && Output(after.b) == Low
      && Output(after.a) == (if FanSpeed(celsius) == 0.0 then Low else Pulsed(FanSpeed(celsius), ActiveHigh))
  {
    MotorFollowsSpeed(celsius);
    if FanSpeed(celsius) == 0.0 {
      StopHaltsBridge(b);
    } else {
      ForwardDrivesOperatorA(b, FanSpeed(celsius));
    }
  }
}
