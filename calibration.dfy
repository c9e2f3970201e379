/**
 * The three sensor calibrations of the biogas monitor, over exact reals: each
 * turns a raw 10-bit sample into a voltage on a 3.3 V reference and applies an
 * affine map. Floating-point rounding is not modelled.
 */
module Calibration {

  /** The reference voltage of the converter. */
  const VRef: real := 3.3

  /** The full-scale divisor of the raw sample. */
  const FullScale: real := 1023.0

  /** Gas sensor (MQ-4): voltage offset and gain of the linear approximation. */
  const MethaneOffset: real := 0.1
  const MethaneGain: real := 500.0

  /** Temperature sensor (LM35): 10 mV per degree Celsius. */
  const DegreesPerVolt: real := 100.0

  /** pH probe: pH 7 at 2.5 V, 0.18 V per pH unit. */
  const NeutralPh: real := 7.0
  const NeutralVoltage: real := 2.5
  const PhSlope: real := 0.18

  /** The voltage normalisation shared by the three sensors. */
  function Voltage(raw: int): (v: real)
    ensures 0 <= raw <= 1023 ==> 0.0 <= v <= VRef
    ensures raw == 1023 ==> v == VRef
  {
    (raw as real * VRef) / FullScale
  }

  /** Methane concentration in ppm, floored at zero. */
  function Methane(raw: int): (ppm: real)
    ensures ppm >= 0.0
  {
    var linear := (Voltage(raw) - MethaneOffset) * MethaneGain;
    if 0.0 >= linear then 0.0 else linear
  }

  /** Temperature in degrees Celsius; no clamp. */
  function Temperature(raw: int): (celsius: real)
    ensures 0 <= raw <= 1023 ==> 0.0 <= celsius <= 330.0
  {
    Voltage(raw) * DegreesPerVolt
  }

  /** Acidity in pH units; no clamp. */
  function Ph(raw: int): (ph: real)
    ensures 0 <= raw <= 1023 ==>
      NeutralPh + (NeutralVoltage - VRef) / PhSlope <= ph <= NeutralPh + NeutralVoltage / PhSlope
  {
    NeutralPh + (NeutralVoltage - Voltage(raw)) / PhSlope
  }

  /** The methane reading is zero exactly up to raw 31, where the voltage reaches 0.1 V. */
  lemma MethaneZeroIff(raw: int)
    ensures Methane(raw) == 0.0 <==> raw <= 31
    ensures raw <= 31 <==> Voltage(raw) <= MethaneOffset
  {
  }

  /** Above the offset voltage the methane reading is the unclamped affine value. */
  lemma MethaneAboveOffset(raw: int)
    requires raw >= 32
    ensures Methane(raw) == (raw as real * 3.3 / 1023.0 - 0.1) * 500.0 > 0.0
  {
  }

  lemma MethaneMonotone(r1: int, r2: int)
    requires r1 <= r2
    ensures Methane(r1) <= Methane(r2)
  {
  }

  /** Temperature is 330/1023 degrees per raw step, with no floor or ceiling. */
  lemma TemperatureLinear(raw: int)
    ensures Temperature(raw) == raw as real * 330.0 / 1023.0
  {
  }

  lemma TemperatureMonotone(r1: int, r2: int)
    requires r1 <= r2
    ensures Temperature(r1) <= Temperature(r2)
  {
  }

  /** Raw 775 is 2.5 V, the neutral point of the probe. */
  lemma PhNeutralPoint()
    ensures Voltage(775) == NeutralVoltage
    ensures Ph(775) == 7.0
  {
  }

  lemma PhStrictlyDecreasing(r1: int, r2: int)
    requires r1 < r2
    ensures Ph(r2) < Ph(r1)
  {
  }

  /**
   * Raw gas sample 300 gives about 433.9 ppm, and raw temperature sample 620
   * gives exactly 200 degrees, a value outside the sensor's physical range
   * that is reported rather than masked.
   */
  lemma WorkedExample()
    ensures 433.8 < Methane(300) < 433.9
    ensures Temperature(620) == 200.0
  {
  }
}
