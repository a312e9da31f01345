/**
 * The sensor reader of the control loop: 64-fold oversampling of ADC1 channel 0 into a
 * uint32 accumulator, and the two fixed scalings from calibrated millivolts to degrees
 * Celsius for the LM35 behind a gain-of-two amplifier.
 *
 * Temperatures are Dafny reals: exact arithmetic, not IEEE single-precision floats.
 */
module Sensor {

  const NO_OF_SAMPLES: nat := 64

  /** adc_reading is a uint32_t: every addition wraps modulo 2^32. */
  const UINT32_MODULUS: int := 0x1_0000_0000

  /** ADC1 is configured for 12-bit conversions, so a raw conversion lies in [0, 4095]. */
  const ADC_MAX_12BIT: int := 4095

  /** One batch of raw conversions as adc1_get_raw returned them (an int; -1 on a driver error). */
  type Samples = s: seq<int> | |s| == NO_OF_SAMPLES witness seq(64, _ => 0)

  /** The mathematical sum, accumulated from the left as the sampling loop does. */
  function Sum(s: seq<int>): int
    decreases |s|
  {
    if s == [] then 0 else Sum(s[..|s| - 1]) + s[|s| - 1]
  }

  /** The largest conversion of a batch. */
  function Largest(s: seq<int>): (m: int)
    requires s != []
    ensures forall k :: 0 <= k < |s| ==> s[k] <= m
    ensures exists k :: 0 <= k < |s| && s[k] == m
    decreases |s|
  {
    if |s| == 1 then s[0]
    else
      var m := Largest(s[..|s| - 1]);
      assert forall k :: 0 <= k < |s| - 1 ==> s[..|s| - 1][k] == s[k];
      if s[|s| - 1] > m then s[|s| - 1] else m
  }

  /** The value adc_reading holds after the sampling loop and the division by 64:
      the sum taken modulo 2^32, then divided with truncation. */
  function Reading(raw: Samples): (r: nat)
    ensures r < UINT32_MODULUS / NO_OF_SAMPLES
  {
    (Sum(raw) % UINT32_MODULUS) / NO_OF_SAMPLES
  }

  /** Converting an int to uint32 and adding agrees with adding first and converting once. */
  lemma AddModulo(a: int, b: int)
    ensures (a % UINT32_MODULUS + b) % UINT32_MODULUS == (a + b) % UINT32_MODULUS
  {
    var m := UINT32_MODULUS;
    var q := a / m;
    assert a == q * m + a % m;
    assert a + b == (a % m + b) + q * m;
    ShiftByMultiple(a % m + b, q);
  }

  lemma ShiftByMultiple(c: int, q: int)
    ensures (c + q * UINT32_MODULUS) % UINT32_MODULUS == c % UINT32_MODULUS
  {
    var m := UINT32_MODULUS;
    var r := c % m;
    assert c == (c / m) * m + r;
    assert c + q * m == (c / m + q) * m + r;
    assert 0 <= r < m;
  }

  /** The multisampling loop of the control task: 64 conversions accumulated into a uint32,
      then divided by 64. The conversions themselves are hardware reads and arrive as `raw`. */
  method SampleAdc(raw: Samples) returns (adcReading: nat)
    ensures adcReading == Reading(raw)
  {
    var acc: int := 0;
    for i := 0 to NO_OF_SAMPLES
      invariant 0 <= acc < UINT32_MODULUS
      invariant acc == Sum(raw[..i]) % UINT32_MODULUS
    {
      assert raw[..i + 1][..i] == raw[..i];
      AddModulo(Sum(raw[..i]), raw[i]);
      acc := (acc + raw[i]) % UINT32_MODULUS;
    }
    assert raw[..NO_OF_SAMPLES] == raw;
    adcReading := acc / NO_OF_SAMPLES;
  }

  /** Bounds on every conversion bound the sum. */
  lemma {:induction false} SumBetween(s: seq<int>, lo: int, hi: int)
    requires forall k :: 0 <= k < |s| ==> lo <= s[k] <= hi
    ensures |s| * lo <= Sum(s) <= |s| * hi
    decreases |s|
  {
    if s != [] {
      var init := s[..|s| - 1];
      assert forall k :: 0 <= k < |init| ==> init[k] == s[k];
      SumBetween(init, lo, hi);
      assert |s| * lo == |init| * lo + lo;
      assert |s| * hi == |init| * hi + hi;
    }
  }

  /** With 12-bit conversions the uint32 accumulator never wraps (64 * 4095 < 2^32): the
      reading is the integer mean of the batch, it lies between the smallest and the largest
      conversion, and so it is itself a 12-bit value. */
  lemma TwelveBitReadingIsMean(raw: Samples, lo: int, hi: int)
    requires 0 <= lo
    requires hi <= ADC_MAX_12BIT
    requires forall k :: 0 <= k < |raw| ==> lo <= raw[k] <= hi
    ensures 0 <= Sum(raw) < UINT32_MODULUS
    ensures Reading(raw) == Sum(raw) / NO_OF_SAMPLES
    ensures lo <= Reading(raw) <= hi
  {
    SumBetween(raw, lo, hi);
    var s := Sum(raw);
    assert 64 * lo <= s <= 64 * hi <= 64 * 4095;
    assert s % UINT32_MODULUS == s;
    DivideBetween(s, lo, hi);
  }

  lemma DivideBetween(s: int, lo: int, hi: int)
    requires 64 * lo <= s <= 64 * hi
    ensures lo <= s / 64 <= hi
  {
    var q := s / 64;
    assert s == 64 * q + s % 64;
    assert 0 <= s % 64 < 64;
  }

  /** The mean is at most the largest conversion of the batch. */
  lemma ReadingAtMostLargest(raw: Samples)
    requires forall k :: 0 <= k < |raw| ==> 0 <= raw[k] <= ADC_MAX_12BIT
    ensures Reading(raw) <= Largest(raw)
  {
    TwelveBitReadingIsMean(raw, 0, Largest(raw));
  }

  /** A single driver error (-1) in an otherwise all-zero batch wraps the accumulator to
      2^32 - 1, and the reading becomes 67108863 instead of 0: the wrap is real. */
  lemma DriverErrorWraps()
    ensures Reading(seq(64, k => if k == 0 then -1 else 0)) == 67108863
  {
    var raw: Samples := seq(64, k => if k == 0 then -1 else 0);
    SumBetween(raw[1..], 0, 0);
    SumOfFirstAndRest(raw);
    assert Sum(raw) == -1;
  }

  /** Taking the sum from the left or splitting off the first element agree. */
  lemma {:induction false} SumOfFirstAndRest(s: seq<int>)
    requires s != []
    ensures Sum(s) == s[0] + Sum(s[1..])
    decreases |s|
  {
    if |s| > 1 {
      var init := s[..|s| - 1];
      SumOfFirstAndRest(init);
      assert init[1..] == s[1..][..|s[1..]| - 1];
    } else {
      assert s[..0] == [] && s[1..] == [];
    }
  }

  /** The derived values of one sample: the calibrated millivolts at the amplifier output
      ("opamp" in the telemetry), the LM35 output (half of that, undoing the amplifier's
      gain of two) and the temperature (10 mV per degree Celsius). */
  datatype Conversion = Conversion(voltage: real, lm35v: real, celsius: real)

  function Convert(millivolts: nat): (c: Conversion)
    ensures c.voltage == millivolts as real
    ensures c.lm35v * 2.0 == c.voltage && c.celsius * 10.0 == c.lm35v
  {
    var voltage := millivolts as real;
    var lm35v := voltage / 2.0;
    Conversion(voltage, lm35v, lm35v / 10.0)
  }

  /** Temperature is strictly increasing in the calibrated voltage. */
  lemma ConvertMonotone(mv1: nat, mv2: nat)
    requires mv1 < mv2
    ensures Convert(mv1).celsius < Convert(mv2).celsius
  {
    assert Convert(mv1).celsius * 20.0 == mv1 as real;
    assert Convert(mv2).celsius * 20.0 == mv2 as real;
  }
}
