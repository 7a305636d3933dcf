/**
 * The coupled readings of one device pairing (`src/model.rs`): the last
 * reading of the reference temperature sensor, the last reading of the
 * thermostatic valve, and one flag per reading saying whether one has been
 * received since start-up.
 */
module Model {

  /** What the reference sensor reports: `{ "temperature": … }`. */
  datatype TemperatureSensorReading = TemperatureSensorReading(temperature: real)

  /** What the valve reports: the temperature it displays and the calibration it applies. */
  datatype ThermoValveReading = ThermoValveReading(localTemperature: real, localTemperatureCalibration: real)

  /**
   * The value of a `CoupledReadings` object: its four fields, as the state
   * endpoint serialises them.
   */
  datatype Snapshot = Snapshot(
    tempSensor: TemperatureSensorReading,
    tempSensorInitialized: bool,
    valveActuator: ThermoValveReading,
    valveActuatorInitialized: bool)
  {
    /** `is_ready_to_be_calibrated` */
    predicate IsReady()
    {
      tempSensorInitialized && valveActuatorInitialized
    }
  }

  /** The value `new()` creates: zero readings, neither flag set. */
  const Initial: Snapshot :=
    Snapshot(TemperatureSensorReading(0.0), false, ThermoValveReading(0.0, 0.0), false)

  /** One call of a setter, with its argument. */
  datatype Update =
    | SensorUpdate(sensor: TemperatureSensorReading)
    | ValveUpdate(valve: ThermoValveReading)

  /** The value after one setter call: the reading of that kind is replaced and its flag set. */
  function Apply(s: Snapshot, u: Update): (t: Snapshot)
    ensures u.SensorUpdate? ==> t.tempSensor == u.sensor && t.tempSensorInitialized
    ensures u.SensorUpdate? ==> t.valveActuator == s.valveActuator && t.valveActuatorInitialized == s.valveActuatorInitialized
    ensures u.ValveUpdate? ==> t.valveActuator == u.valve && t.valveActuatorInitialized
    ensures u.ValveUpdate? ==> t.tempSensor == s.tempSensor && t.tempSensorInitialized == s.tempSensorInitialized
  {
    match u
    case SensorUpdate(r) => s.(tempSensor := r, tempSensorInitialized := true)
    case ValveUpdate(v) => s.(valveActuator := v, valveActuatorInitialized := true)
  }

  /** The value after a sequence of setter calls, first to last. */
  function ApplyAll(s: Snapshot, us: seq<Update>): (t: Snapshot)
    decreases |us|
  {
    if us == [] then s else ApplyAll(Apply(s, us[0]), us[1..])
  }

  /** Some call in `us` sets the sensor reading. */
  predicate HasSensorUpdate(us: seq<Update>)
  {
    exists i :: 0 <= i < |us| && us[i].SensorUpdate?
  }

  /** Some call in `us` sets the valve reading. */
  predicate HasValveUpdate(us: seq<Update>)
  {
    exists i :: 0 <= i < |us| && us[i].ValveUpdate?
  }

  /**
   * A flag is set after a sequence of calls exactly when it was set before or
   * a call of its kind occurred: no call ever clears a flag.
   */
  lemma {:induction false} FlagsAfterUpdates(s: Snapshot, us: seq<Update>)
    ensures ApplyAll(s, us).tempSensorInitialized <==> s.tempSensorInitialized || HasSensorUpdate(us)
    ensures ApplyAll(s, us).valveActuatorInitialized <==> s.valveActuatorInitialized || HasValveUpdate(us)
    decreases |us|
  {
    if us != [] {
      FlagsAfterUpdates(Apply(s, us[0]), us[1..]);
      if HasSensorUpdate(us) && !us[0].SensorUpdate? {
        var i :| 0 <= i < |us| && us[i].SensorUpdate?;
        assert us[1..][i - 1].SensorUpdate?;
      }
      if HasValveUpdate(us) && !us[0].ValveUpdate? {
        var i :| 0 <= i < |us| && us[i].ValveUpdate?;
        assert us[1..][i - 1].ValveUpdate?;
      }
      if HasSensorUpdate(us[1..]) {
        var i :| 0 <= i < |us[1..]| && us[1..][i].SensorUpdate?;
        assert us[i + 1].SensorUpdate?;
      }
      if HasValveUpdate(us[1..]) {
        var i :| 0 <= i < |us[1..]| && us[1..][i].ValveUpdate?;
        assert us[i + 1].ValveUpdate?;
      }
    }
  }

  /**
   * Starting from `new()`, the pairing is ready exactly when the calls
   * included at least one sensor reading and one valve reading, in any order.
   */
  lemma ReadyAfterUpdates(us: seq<Update>)
    ensures ApplyAll(Initial, us).IsReady() <==> HasSensorUpdate(us) && HasValveUpdate(us)
  {
    FlagsAfterUpdates(Initial, us);
  }

  /**
   * The sensor getter returns the argument of the last sensor call, or the
   * value before the calls when there was none; likewise for the valve.
   */
  lemma {:induction false} LastReadingWins(s: Snapshot, us: seq<Update>)
    ensures !HasSensorUpdate(us) ==> ApplyAll(s, us).tempSensor == s.tempSensor
    ensures !HasValveUpdate(us) ==> ApplyAll(s, us).valveActuator == s.valveActuator
    ensures forall i :: 0 <= i < |us| && us[i].SensorUpdate? && !HasSensorUpdate(us[i + 1..])
                        ==> ApplyAll(s, us).tempSensor == us[i].sensor
    ensures forall i :: 0 <= i < |us| && us[i].ValveUpdate? && !HasValveUpdate(us[i + 1..])
                        ==> ApplyAll(s, us).valveActuator == us[i].valve
    decreases |us|
  {
    if us != [] {
      var s' := Apply(s, us[0]);
      LastReadingWins(s', us[1..]);
      if !HasSensorUpdate(us) {
        assert !us[0].SensorUpdate?;
      }
      if !HasValveUpdate(us) {
        assert !us[0].ValveUpdate?;
      }
      forall i | 0 <= i < |us| && us[i].SensorUpdate? && !HasSensorUpdate(us[i + 1..])
        ensures ApplyAll(s, us).tempSensor == us[i].sensor
      {
        if i > 0 {
          assert us[1..][i - 1] == us[i] && us[1..][i..] == us[i + 1..];
        } else {
          assert us[1..] == us[i + 1..];
        }
      }
      forall i | 0 <= i < |us| && us[i].ValveUpdate? && !HasValveUpdate(us[i + 1..])
        ensures ApplyAll(s, us).valveActuator == us[i].valve
      {
        if i > 0 {
          assert us[1..][i - 1] == us[i] && us[1..][i..] == us[i + 1..];
        } else {
          assert us[1..] == us[i + 1..];
        }
      }
    }
  }

  /** `CoupledThermoValveAndSensorReadings`: one device pairing's readings, updated in place. */
  class CoupledReadings {
    var tempSensor: TemperatureSensorReading
    var tempSensorInitialized: bool
    var valveActuator: ThermoValveReading
    var valveActuatorInitialized: bool

    /** The object's current value. */
    function Value(): (s: Snapshot)
      reads this
    {
      Snapshot(tempSensor, tempSensorInitialized, valveActuator, valveActuatorInitialized)
    }

    /** `new`: zero readings and neither flag set. */
    constructor ()
      ensures Value() == Initial
      ensures !Value().IsReady()
    {
      tempSensor := TemperatureSensorReading(0.0);
      tempSensorInitialized := false;
      valveActuator := ThermoValveReading(0.0, 0.0);
      valveActuatorInitialized := false;
    }

    /** `set_temp_sensor`: replaces the sensor reading and sets its flag; the valve side is untouched. */
    method SetTempSensor(reading: TemperatureSensorReading)
      modifies this
      ensures tempSensor == reading && tempSensorInitialized
      ensures valveActuator == old(valveActuator) && valveActuatorInitialized == old(valveActuatorInitialized)
      ensures Value() == Apply(old(Value()), SensorUpdate(reading))
    {
      tempSensor := reading;
      if !tempSensorInitialized {
        tempSensorInitialized := true;
      }
    }

    /** `get_temp_sensor` */
    function GetTempSensor(): (r: TemperatureSensorReading)
      reads this
      ensures r == Value().tempSensor
    {
      tempSensor
    }

    /** `set_valve_actuator`: replaces the valve reading and sets its flag; the sensor side is untouched. */
    method SetValveActuator(reading: ThermoValveReading)
      modifies this
      ensures valveActuator == reading && valveActuatorInitialized
      ensures tempSensor == old(tempSensor) && tempSensorInitialized == old(tempSensorInitialized)
      ensures Value() == Apply(old(Value()), ValveUpdate(reading))
    {
      valveActuator := reading;
      if !valveActuatorInitialized {
        valveActuatorInitialized := true;
      }
    }

    /** `get_valve_actuator` */
    function GetValveActuator(): (r: ThermoValveReading)
      reads this
      ensures r == Value().valveActuator
    {
      valveActuator
    }

    /** `is_ready_to_be_calibrated`: both kinds of reading have been received. */
    function IsReadyToBeCalibrated(): (ready: bool)
      reads this
      ensures ready == Value().IsReady()
    {
      tempSensorInitialized && valveActuatorInitialized
    }
  }

  /**
   * A fresh pairing is not ready, nor after only one of its two readings;
   * once it has received both, in either order, it is ready.
   */
  method ReadyOnceBothReadingsSeen(sensor: TemperatureSensorReading, valve: ThermoValveReading, sensorFirst: bool)
    returns (readyAtStart: bool, readyAfterOne: bool, readyAfterBoth: bool)
    ensures !readyAtStart && !readyAfterOne && readyAfterBoth
  {
    var readings := new CoupledReadings();
    readyAtStart := readings.IsReadyToBeCalibrated();
    if sensorFirst {
      readings.SetTempSensor(sensor);
      readyAfterOne := readings.IsReadyToBeCalibrated();
      readings.SetValveActuator(valve);
    } else {
      readings.SetValveActuator(valve);
      readyAfterOne := readings.IsReadyToBeCalibrated();
      readings.SetTempSensor(sensor);
    }
    readyAfterBoth := readings.IsReadyToBeCalibrated();
  }
}
