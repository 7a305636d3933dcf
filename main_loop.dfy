/**
 * The original single-device program (`src/main.rs`): one sensor and one
 * valve on fixed topics, three variables updated message by message, and
 * after every message a gate and a publish decision. Its calibration
 * function is an older one: 0.25/0.75 thresholds, no sign handling, no clamp.
 */
module MainLoop {
  import opened Float
  import opened Wrappers
  import opened Text
  import opened Model

  /**
   * `round_to_correct_fraction` (older version): 0 up to 0.25, 0.5 up to
   * 0.75, and 1.0 for everything else, negative fractions included.
   */
  function RoundToCorrectFraction(fraction: real): (r: real)
    ensures r == 0.0 <==> 0.0 <= fraction <= 0.25
    ensures r == 0.5 <==> 0.25 < fraction <= 0.75
    ensures r == 1.0 <==> fraction < 0.0 || fraction > 0.75
  {
    if fraction >= 0.0 && fraction <= 0.25 then
      0.0
    else if fraction > 0.25 && fraction <= 0.75 then
      0.5
    else
      1.0
  }

  /** The offset the valve needs: the sensor temperature minus the valve's uncalibrated reading. */
  function RawOffset(tempSensor: real, tempCalibrationOld: real, tempShowOnValveOld: real): (raw: real)
  {
    tempSensor - (tempShowOnValveOld - tempCalibrationOld)
  }

  /**
   * `compute_new_calibration` (older version): the integer part of the raw
   * offset plus the snapped fraction, with no clamping. It is on the
   * 0.5-degree grid, and for a non-negative raw offset it is the nearest
   * grid value (within 0.25).
   */
  function ComputeNewCalibration(tempSensor: real, tempCalibrationOld: real, tempShowOnValveOld: real): (r: real)
    ensures OnHalfGrid(r)
    ensures RawOffset(tempSensor, tempCalibrationOld, tempShowOnValveOld) >= 0.0 ==>
              Abs(r - RawOffset(tempSensor, tempCalibrationOld, tempShowOnValveOld)) <= 0.25
  {
    var tempCalibrationNew := RawOffset(tempSensor, tempCalibrationOld, tempShowOnValveOld);
    var fractionCorrection := RoundToCorrectFraction(Fract(tempCalibrationNew));
    var r := Trunc(tempCalibrationNew) as real + fractionCorrection;
    assert r == (2 * Trunc(tempCalibrationNew) + (2.0 * fractionCorrection).Floor) as real / 2.0;
    HalvesOnHalfGrid(2 * Trunc(tempCalibrationNew) + (2.0 * fractionCorrection).Floor);
    r
  }

  /**
   * A raw offset with a negative fractional part is rounded up past the next
   * integer: the result lies more than one degree above the raw offset.
   */
  lemma NegativeFractionOvershoots(tempSensor: real, tempCalibrationOld: real, tempShowOnValveOld: real)
    requires Fract(RawOffset(tempSensor, tempCalibrationOld, tempShowOnValveOld)) < 0.0
    ensures ComputeNewCalibration(tempSensor, tempCalibrationOld, tempShowOnValveOld)
            > RawOffset(tempSensor, tempCalibrationOld, tempShowOnValveOld) + 1.0
  {
  }

  /**
   * The sensor reads 20.1 and the valve, calibrated by +0.5, displays 21.5:
   * the valve's own reading is 0.9 too high, yet the result is +1.0, which
   * the gate lets through and which differs from the old +0.5.
   */
  lemma WrongDirectionExample()
    ensures RawOffset(20.1, 0.5, 21.5) == -0.9
    ensures ComputeNewCalibration(20.1, 0.5, 21.5) == 1.0
    ensures PublishDecision(LoopState(20.1, 0.5, 21.5)) == Some(1.0)
  {
  }

  /** Nothing bounds the result: a ten-degree discrepancy gives a ten-degree calibration. */
  lemma NoClampExample()
    ensures ComputeNewCalibration(30.0, 0.0, 20.0) == 10.0
  {
  }

  /**
   * The worked examples that accompany the older `compute_new_calibration`.
   * The third example's comment expects 0.5 while its assertion expects 1.0;
   * the function gives 0.5.
   */
  lemma TestExamples()
    ensures ComputeNewCalibration(21.6, 1.0, 18.0) == 4.5
    ensures ComputeNewCalibration(20.2, 1.0, 20.0) == 1.0
    ensures ComputeNewCalibration(20.3, -1.0, 19.0) == 0.5
  {
  }

  /** The loop's three variables: `temp_sensor`, `temp_calibration_old`, `temp_show_on_valve_old`. */
  datatype LoopState = LoopState(tempSensor: real, tempCalibrationOld: real, tempShowOnValveOld: real)

  /** All three variables start at zero. */
  const InitialLoopState: LoopState := LoopState(0.0, 0.0, 0.0)

  /**
   * A received message: its string form, and its payload decoded as a sensor
   * reading and as a valve reading (`None` where decoding fails).
   */
  datatype Message = Message(
    text: string,
    asTemperatureSensor: Option<TemperatureSensorReading>,
    asThermoValve: Option<ThermoValveReading>)

  /** What the message stream yields: a message, or `None` for a lost connection. */
  datatype Delivery = Received(msg: Message) | Disconnected

  /** After one delivery: the new variables and the calibration published, if any; or a decode panic. */
  datatype StepResult = Continue(state: LoopState, publish: Option<real>) | Panic

  /**
   * The gate and the publish decision: a calibration is computed only when the
   * sensor temperature and the old calibration are both positive, and
   * published only when it differs from the old calibration.
   */
  function PublishDecision(s: LoopState): (p: Option<real>)
    ensures p.Some? <==>
              s.tempSensor > 0.0 && s.tempCalibrationOld > 0.0
              && ComputeNewCalibration(s.tempSensor, s.tempCalibrationOld, s.tempShowOnValveOld) != s.tempCalibrationOld
    ensures p.Some? ==> p.value == ComputeNewCalibration(s.tempSensor, s.tempCalibrationOld, s.tempShowOnValveOld)
  {
    if s.tempSensor > 0.0 && s.tempCalibrationOld > 0.0 then
      var tempCalibrationNew := ComputeNewCalibration(s.tempSensor, s.tempCalibrationOld, s.tempShowOnValveOld);
      if tempCalibrationNew != s.tempCalibrationOld then Some(tempCalibrationNew) else None
    else
      None
  }

  /**
   * One pass of the `while let` loop. A message whose string form contains
   * "temp_sensor" sets the sensor temperature; independently, one containing
   * "thermo_valve" sets the old calibration and the displayed temperature;
   * a failed decode panics. Then the publish decision is taken on the new
   * variables, whatever the message was. A lost connection is followed by a
   * reconnection and changes nothing.
   */
  function Step(s: LoopState, d: Delivery): (r: StepResult)
    ensures d.Disconnected? ==> r == Continue(s, None)
    ensures r.Panic? <==>
              d.Received?
              && ((Contains(d.msg.text, "temp_sensor") && d.msg.asTemperatureSensor.None?)
                  || (Contains(d.msg.text, "thermo_valve") && d.msg.asThermoValve.None?))
    ensures r.Continue? && d.Received? ==>
              && r.state.tempSensor == (if Contains(d.msg.text, "temp_sensor")
                                        then d.msg.asTemperatureSensor.value.temperature else s.tempSensor)
              && r.state.tempCalibrationOld == (if Contains(d.msg.text, "thermo_valve")
                                                then d.msg.asThermoValve.value.localTemperatureCalibration
                                                else s.tempCalibrationOld)
              && r.state.tempShowOnValveOld == (if Contains(d.msg.text, "thermo_valve")
                                                then d.msg.asThermoValve.value.localTemperature
                                                else s.tempShowOnValveOld)
    ensures r.Continue? && d.Received? ==> r.publish == PublishDecision(r.state)
  {
    match d
    case Disconnected => Continue(s, None)
    case Received(msg) =>
      var isSensor := Contains(msg.text, "temp_sensor");
      var isValve := Contains(msg.text, "thermo_valve");
      if isSensor && msg.asTemperatureSensor.None? then Panic
      else
        var s1 := if isSensor then s.(tempSensor := msg.asTemperatureSensor.value.temperature) else s;
        if isValve && msg.asThermoValve.None? then Panic
        else
          var s2 := if isValve then
                      s1.(tempCalibrationOld := msg.asThermoValve.value.localTemperatureCalibration,
                          tempShowOnValveOld := msg.asThermoValve.value.localTemperature)
                    else s1;
          Continue(s2, PublishDecision(s2))
  }

  /** A sensor message (and not a valve one) changes only the sensor temperature. */
  lemma SensorMessageSetsOnlySensor(s: LoopState, msg: Message)
    requires Contains(msg.text, "temp_sensor") && !Contains(msg.text, "thermo_valve")
    requires msg.asTemperatureSensor.Some?
    ensures Step(s, Received(msg)).Continue?
    ensures Step(s, Received(msg)).state == s.(tempSensor := msg.asTemperatureSensor.value.temperature)
  {
  }

  /** A valve message (and not a sensor one) changes only the old calibration and the displayed temperature. */
  lemma ValveMessageSetsOnlyValve(s: LoopState, msg: Message)
    requires Contains(msg.text, "thermo_valve") && !Contains(msg.text, "temp_sensor")
    requires msg.asThermoValve.Some?
    ensures Step(s, Received(msg)).Continue?
    ensures Step(s, Received(msg)).state.tempSensor == s.tempSensor
    ensures Step(s, Received(msg)).state.tempCalibrationOld == msg.asThermoValve.value.localTemperatureCalibration
    ensures Step(s, Received(msg)).state.tempShowOnValveOld == msg.asThermoValve.value.localTemperature
  {
  }

  /**
   * A message that names neither device leaves the variables as they were,
   * but the publish decision is still taken on them.
   */
  lemma OtherMessageKeepsState(s: LoopState, msg: Message)
    requires !Contains(msg.text, "temp_sensor") && !Contains(msg.text, "thermo_valve")
    ensures Step(s, Received(msg)) == Continue(s, PublishDecision(s))
  {
  }

  /**
   * Whatever a step publishes is the calibration computed from the new
   * variables, on the 0.5-degree grid, different from the old calibration,
   * and only published when the sensor temperature and the old calibration
   * are positive.
   */
  lemma PublishedOnlyThroughGate(s: LoopState, d: Delivery)
    requires Step(s, d).Continue? && Step(s, d).publish.Some?
    ensures var t := Step(s, d).state;
            var v := Step(s, d).publish.value;
            && t.tempSensor > 0.0 && t.tempCalibrationOld > 0.0
            && v == ComputeNewCalibration(t.tempSensor, t.tempCalibrationOld, t.tempShowOnValveOld)
            && v != t.tempCalibrationOld
            && OnHalfGrid(v)
  {
  }

  /**
   * The gate looks at the old calibration, not at the displayed temperature:
   * a valve that reports 0.0 displayed still gets a (here unclamped) correction.
   */
  lemma GateIgnoresDisplayedTemperature()
    ensures PublishDecision(LoopState(20.0, 1.0, 0.0)) == Some(21.0)
  {
  }

  /**
   * What the loop leaves behind: the variables at the end, what it published
   * in order, and whether it panicked. After a panic `state` holds the
   * variables from before the message that panicked.
   */
  datatype RunResult = RunResult(state: LoopState, published: seq<real>, panicked: bool)

  /** The loop run over a sequence of deliveries from state `s`; a panic ends it. */
  function RunFrom(s: LoopState, ds: seq<Delivery>): (r: RunResult)
    decreases |ds|
  {
    if ds == [] then RunResult(s, [], false)
    else
      match Step(s, ds[0])
      case Panic => RunResult(s, [], true)
      case Continue(next, publish) =>
        var rest := RunFrom(next, ds[1..]);
        RunResult(rest.state, (if publish.Some? then [publish.value] else []) + rest.published, rest.panicked)
  }

  /**
   * Everything a run publishes is on the 0.5-degree grid.
   */
  lemma {:induction false} RunPublishesGridValues(s: LoopState, ds: seq<Delivery>)
    ensures forall i :: 0 <= i < |RunFrom(s, ds).published| ==> OnHalfGrid(RunFrom(s, ds).published[i])
    decreases |ds|
  {
    if ds != [] {
      match Step(s, ds[0])
      case Panic =>
      case Continue(next, publish) =>
        RunPublishesGridValues(next, ds[1..]);
        if publish.Some? {
          PublishedOnlyThroughGate(s, ds[0]);
        }
    }
  }

  /**
   * The `while let` loop over the message stream, from the initial variables:
   * it ends when the stream ends or when a decode panics.
   */
  method Run(deliveries: seq<Delivery>) returns (result: RunResult)
    ensures result == RunFrom(InitialLoopState, deliveries)
    ensures forall i :: 0 <= i < |result.published| ==> OnHalfGrid(result.published[i])
  {
    var state := InitialLoopState;
    var published: seq<real> := [];
    var i := 0;
    while i < |deliveries|
      invariant 0 <= i <= |deliveries|
      invariant var rest := RunFrom(state, deliveries[i..]);
                RunFrom(InitialLoopState, deliveries) == RunResult(rest.state, published + rest.published, rest.panicked)
    {
      assert deliveries[i..][0] == deliveries[i] && deliveries[i..][1..] == deliveries[i + 1..];
      match Step(state, deliveries[i]) {
        case Panic =>
          result := RunResult(state, published, true);
          RunPublishesGridValues(InitialLoopState, deliveries);
          return;
        case Continue(next, publish) =>
          if publish.Some? {
            published := published + [publish.value];
          }
          state := next;
      }
      i := i + 1;
    }
    result := RunResult(state, published, false);
    RunPublishesGridValues(InitialLoopState, deliveries);
  }
}
