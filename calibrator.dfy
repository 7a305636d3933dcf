/**
 * The calibration engine (`src/calibrator.rs`): from the reference sensor's
 * temperature, the calibration currently applied on the valve and the
 * temperature the valve displays, compute the calibration offset to apply
 * next. The result is snapped to the valve's 0.5-degree grid and clamped to
 * the valve's physical range of plus or minus 5 degrees.
 */
module Calibrator {
  import opened Float

  /** The largest offset, in either direction, the valve accepts. */
  const MaxCalibration: real := 5.0

  /**
   * `round_to_correct_fraction`: snaps a fractional part to 0, 0.5 or 1 in
   * the fraction's own direction, with 0.33 and 0.66 as the thresholds on its
   * magnitude (upper bounds inclusive).
   */
  function RoundToCorrectFraction(fraction: real): (r: real)
    ensures r == 0.0 <==> -0.33 <= fraction <= 0.33
    ensures r == 0.5 <==> 0.33 < fraction <= 0.66
    ensures r == -0.5 <==> -0.66 <= fraction < -0.33
    ensures r == 1.0 <==> fraction > 0.66
    ensures r == -1.0 <==> fraction < -0.66
    ensures -1.0 < fraction < 1.0 ==> Abs(r - fraction) < 0.34
  {
    var fractionAbs := Abs(fraction);
    if fractionAbs >= 0.0 && fractionAbs <= 0.33 then
      0.0
    else if fractionAbs > 0.33 && fractionAbs <= 0.66 then
      0.5 * Signum(fraction)
    else
      1.0 * Signum(fraction)
  }

  /**
   * The offset that would make the valve display the sensor's temperature:
   * the sensor temperature minus what the valve measures without calibration.
   */
  function RawOffset(tempSensor: real, tempCalibrationOld: real, tempShowOnValveOld: real): (raw: real)
  {
    tempSensor - (tempShowOnValveOld - tempCalibrationOld)
  }

  /** The raw offset, snapped to the grid but not yet clamped. */
  function Candidate(raw: real): (c: real)
    ensures OnHalfGrid(c)
    ensures Abs(c - raw) < 0.34
    ensures raw >= 0.0 ==> c >= 0.0
    ensures raw <= 0.0 ==> c <= 0.0
    ensures raw >= MaxCalibration ==> c >= MaxCalibration
    ensures raw <= -MaxCalibration ==> c <= -MaxCalibration
  {
    var bucket := RoundToCorrectFraction(Fract(raw));
    var c := Trunc(raw) as real + bucket;
    assert c == (2 * Trunc(raw) + (2.0 * bucket).Floor) as real / 2.0;
    HalvesOnHalfGrid(2 * Trunc(raw) + (2.0 * bucket).Floor);
    c
  }

  /** `x` limited to the valve's range. */
  function Clamp(x: real): (r: real)
    ensures -MaxCalibration <= r <= MaxCalibration
    ensures -MaxCalibration <= x <= MaxCalibration ==> r == x
  {
    if x > MaxCalibration then MaxCalibration
    else if x < -MaxCalibration then -MaxCalibration
    else x
  }

  /**
   * `compute_new_calibration`: the grid-aligned, clamped offset. The result
   * is within 0.34 of the raw offset limited to the valve's range, and has
   * the raw offset's sign.
   */
  function ComputeNewCalibration(tempSensor: real, tempCalibrationOld: real, tempShowOnValveOld: real): (r: real)
    ensures -MaxCalibration <= r <= MaxCalibration
    ensures OnHalfGrid(r)
    ensures Abs(r - Clamp(RawOffset(tempSensor, tempCalibrationOld, tempShowOnValveOld))) < 0.34
    ensures RawOffset(tempSensor, tempCalibrationOld, tempShowOnValveOld) >= 0.0 ==> r >= 0.0
    ensures RawOffset(tempSensor, tempCalibrationOld, tempShowOnValveOld) <= 0.0 ==> r <= 0.0
  {
    var newCalibration := Candidate(RawOffset(tempSensor, tempCalibrationOld, tempShowOnValveOld));
    if Abs(newCalibration) <= MaxCalibration then
      newCalibration
    else
      assert OnHalfGrid(MaxCalibration) && OnHalfGrid(-MaxCalibration);
      MaxCalibration * Signum(newCalibration)
  }

  /** The candidate is kept when it is inside the range and replaced by the bound on its side otherwise. */
  lemma ClampsCandidate(tempSensor: real, tempCalibrationOld: real, tempShowOnValveOld: real)
    ensures var c := Candidate(RawOffset(tempSensor, tempCalibrationOld, tempShowOnValveOld));
            var r := ComputeNewCalibration(tempSensor, tempCalibrationOld, tempShowOnValveOld);
            (Abs(c) <= MaxCalibration ==> r == c)
            && (c > MaxCalibration ==> r == MaxCalibration)
            && (c < -MaxCalibration ==> r == -MaxCalibration)
  {
  }

  /** The worked examples that accompany `compute_new_calibration`. */
  lemma TestExamples()
    ensures ComputeNewCalibration(21.6, 1.0, 18.0) == 4.5
    ensures ComputeNewCalibration(20.2, 1.0, 20.0) == 1.0
    ensures ComputeNewCalibration(20.3, 0.0, 22.0) == -2.0
    ensures ComputeNewCalibration(20.3, 0.0, 27.0) == -5.0
    ensures ComputeNewCalibration(24.0, 0.0, 13.2) == 5.0
  {
  }
}
