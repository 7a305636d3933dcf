/**
 * The topic router and message handler (`src/message_handler.rs`): find the
 * device whose configured sensor or valve suffix occurs in a message's topic,
 * decode the payload, and write the reading into that device's entry of the
 * state store. The handler only updates the store; it computes no calibration
 * and publishes nothing.
 */
module MessageHandler {
  import opened Wrappers
  import opened Text
  import opened Model
  import opened Config
  import State

  /** Device `i` has a `role` suffix that occurs in `topic`. */
  predicate MatchesAt(devices: Devices, i: int, topic: string, role: Role)
    requires 0 <= i < |devices|
  {
    Contains(topic, Suffix(devices[i].1, role))
  }

  /**
   * The device that owns `topic` in the role `role`: among the devices whose
   * suffix occurs in the topic, the last one in iteration order.
   */
  function ResolveKey(devices: Devices, topic: string, role: Role): (key: Option<string>)
    decreases |devices|
  {
    if devices == [] then None
    else if Contains(topic, Suffix(devices[|devices| - 1].1, role)) then Some(devices[|devices| - 1].0)
    else ResolveKey(devices[..|devices| - 1], topic, role)
  }

  /**
   * `ResolveKey` finds nothing exactly when no device's suffix occurs in the
   * topic, and otherwise the key of a matching device that no later device
   * in iteration order matches.
   */
  lemma {:induction false} ResolveKeyIsLastMatch(devices: Devices, topic: string, role: Role)
    ensures ResolveKey(devices, topic, role).None?
            <==> forall i :: 0 <= i < |devices| ==> !MatchesAt(devices, i, topic, role)
    ensures ResolveKey(devices, topic, role).Some? ==>
              exists i :: 0 <= i < |devices| && devices[i].0 == ResolveKey(devices, topic, role).value
                          && MatchesAt(devices, i, topic, role)
                          && forall j :: i < j < |devices| ==> !MatchesAt(devices, j, topic, role)
    decreases |devices|
  {
    if devices != [] {
      var n := |devices| - 1;
      var front := devices[..n];
      ResolveKeyIsLastMatch(front, topic, role);
      assert forall i :: 0 <= i < n ==> front[i] == devices[i];
      assert forall i :: 0 <= i < n ==> (MatchesAt(front, i, topic, role) <==> MatchesAt(devices, i, topic, role));
      if MatchesAt(devices, n, topic, role) {
        assert ResolveKey(devices, topic, role) == Some(devices[n].0);
      } else if ResolveKey(front, topic, role).Some? {
        var i :| 0 <= i < n && front[i].0 == ResolveKey(front, topic, role).value
                 && MatchesAt(front, i, topic, role)
                 && forall j :: i < j < n ==> !MatchesAt(front, j, topic, role);
        assert MatchesAt(devices, i, topic, role);
      }
    }
  }

  /** A resolved key is one of the configured keys, so a store built from the same devices has an entry for it. */
  lemma ResolvedKeyIsConfigured(devices: Devices, topic: string, role: Role)
    ensures ResolveKey(devices, topic, role).Some? ==> ResolveKey(devices, topic, role).value in Keys(devices)
  {
    ResolveKeyIsLastMatch(devices, topic, role);
  }

  /**
   * Every subscription topic built from a device's suffix resolves, in that
   * role, to that device or to a later one.
   */
  lemma SubscribedTopicResolves(baseTopic: string, devices: Devices, i: int, role: Role)
    requires 0 <= i < |devices|
    ensures ResolveKey(devices, Topic(baseTopic, Suffix(devices[i].1, role)), role).Some?
    ensures exists j :: i <= j < |devices|
                        && ResolveKey(devices, Topic(baseTopic, Suffix(devices[i].1, role)), role) == Some(devices[j].0)
  {
    ContainsSuffix(baseTopic + "/", Suffix(devices[i].1, role));
    ResolveKeyIsLastMatch(devices, Topic(baseTopic, Suffix(devices[i].1, role)), role);
    assert MatchesAt(devices, i, Topic(baseTopic, Suffix(devices[i].1, role)), role);
  }

  /**
   * A message payload, decoded in the two ways the handler may decode it:
   * as a sensor reading and as a valve reading; `None` where decoding fails.
   */
  datatype Payload = Payload(
    asTemperatureSensor: Option<TemperatureSensorReading>,
    asThermoValve: Option<ThermoValveReading>)

  /** The payload decoded for a device of kind `role`, as the setter call it leads to. */
  function Decoded(message: Payload, role: Role): (u: Option<Update>)
  {
    match role
    case TemperatureSensor =>
      if message.asTemperatureSensor.Some? then Some(SensorUpdate(message.asTemperatureSensor.value)) else None
    case ValveActuator =>
      if message.asThermoValve.Some? then Some(ValveUpdate(message.asThermoValve.value)) else None
  }

  /**
   * How handling a message ends: normally, or in the panic raised by
   * unwrapping a failed decode of a resolved message.
   */
  datatype HandleOutcome = Handled | DecodePanic(role: Role)

  /** The store's value after handling a message, and how the handling ended. */
  datatype HandleResult = HandleResult(devicesState: map<string, Snapshot>, outcome: HandleOutcome)

  /** One of the handler's two independent steps: resolve in `role`, decode, update the store. */
  function Route(devices: Devices, topic: string, message: Payload, role: Role, m: map<string, Snapshot>): (r: HandleResult)
  {
    match ResolveKey(devices, topic, role)
    case None => HandleResult(m, Handled)
    case Some(key) =>
      match Decoded(message, role)
      case None => HandleResult(m, DecodePanic(role))
      case Some(u) => HandleResult(State.UpdateEntry(m, key, u), Handled)
  }

  /** `handle_message` as a function of the store's value: the sensor step, then, unless it panicked, the valve step. */
  function HandleSpec(devices: Devices, topic: string, message: Payload, m: map<string, Snapshot>): (r: HandleResult)
  {
    var afterSensor := Route(devices, topic, message, TemperatureSensor, m);
    if afterSensor.outcome.DecodePanic? then afterSensor
    else Route(devices, topic, message, ValveActuator, afterSensor.devicesState)
  }

  /** Handling a message never adds or removes a key of the store. */
  lemma HandleKeepsKeys(devices: Devices, topic: string, message: Payload, m: map<string, Snapshot>)
    ensures HandleSpec(devices, topic, message, m).devicesState.Keys == m.Keys
  {
  }

  /** A topic that contains no configured suffix of either kind leaves the store as it was, without error. */
  lemma UnmatchedTopicIsIgnored(devices: Devices, topic: string, message: Payload, m: map<string, Snapshot>)
    requires forall i :: 0 <= i < |devices| ==> !MatchesAt(devices, i, topic, TemperatureSensor)
    requires forall i :: 0 <= i < |devices| ==> !MatchesAt(devices, i, topic, ValveActuator)
    ensures HandleSpec(devices, topic, message, m) == HandleResult(m, Handled)
  {
    ResolveKeyIsLastMatch(devices, topic, TemperatureSensor);
    ResolveKeyIsLastMatch(devices, topic, ValveActuator);
  }

  /**
   * A topic that contains a sensor suffix but no valve suffix, with a payload
   * that decodes as a sensor reading, changes only the sensor reading and the
   * sensor flag of the resolved device.
   */
  lemma SensorTopicUpdatesOnlySensor(devices: Devices, topic: string, message: Payload, m: map<string, Snapshot>)
    requires ResolveKey(devices, topic, TemperatureSensor).Some?
    requires forall i :: 0 <= i < |devices| ==> !MatchesAt(devices, i, topic, ValveActuator)
    requires message.asTemperatureSensor.Some?
    ensures var key := ResolveKey(devices, topic, TemperatureSensor).value;
            var r := HandleSpec(devices, topic, message, m);
            && r.outcome == Handled
            && r.devicesState.Keys == m.Keys
            && (key in m ==> r.devicesState[key] == m[key].(tempSensor := message.asTemperatureSensor.value,
                                                             tempSensorInitialized := true))
            && (forall k :: k in m && k != key ==> r.devicesState[k] == m[k])
  {
    ResolveKeyIsLastMatch(devices, topic, ValveActuator);
  }

  /**
   * A topic that resolves in both roles, with a payload that decodes both
   * ways, gets both updates: the sensor one first, then the valve one.
   */
  lemma BothRolesApplySensorFirst(devices: Devices, topic: string, message: Payload, m: map<string, Snapshot>)
    requires ResolveKey(devices, topic, TemperatureSensor).Some?
    requires ResolveKey(devices, topic, ValveActuator).Some?
    requires message.asTemperatureSensor.Some? && message.asThermoValve.Some?
    ensures HandleSpec(devices, topic, message, m) ==
            HandleResult(
              State.UpdateEntry(
                State.UpdateEntry(m, ResolveKey(devices, topic, TemperatureSensor).value,
                                  SensorUpdate(message.asTemperatureSensor.value)),
                ResolveKey(devices, topic, ValveActuator).value,
                ValveUpdate(message.asThermoValve.value)),
              Handled)
  {
  }

  /**
   * A payload that fails to decode for a resolved role ends the handling in a
   * panic: before any write when it is the sensor decode, after the sensor
   * write when it is the valve decode.
   */
  lemma DecodeFailurePanics(devices: Devices, topic: string, message: Payload, m: map<string, Snapshot>)
    ensures ResolveKey(devices, topic, TemperatureSensor).Some? && message.asTemperatureSensor.None? ==>
              HandleSpec(devices, topic, message, m) == HandleResult(m, DecodePanic(TemperatureSensor))
    ensures ResolveKey(devices, topic, TemperatureSensor).None?
            && ResolveKey(devices, topic, ValveActuator).Some? && message.asThermoValve.None? ==>
              HandleSpec(devices, topic, message, m) == HandleResult(m, DecodePanic(ValveActuator))
    ensures ResolveKey(devices, topic, TemperatureSensor).Some? && message.asTemperatureSensor.Some?
            && ResolveKey(devices, topic, ValveActuator).Some? && message.asThermoValve.None? ==>
              HandleSpec(devices, topic, message, m) ==
              HandleResult(State.UpdateEntry(m, ResolveKey(devices, topic, TemperatureSensor).value,
                                             SensorUpdate(message.asTemperatureSensor.value)),
                           DecodePanic(ValveActuator))
  {
  }

  /** `MessageHandler`: routes messages using the configured devices. */
  class MessageHandler {
    const devices: Devices

    /** `MessageHandler::new` */
    constructor (devices: Devices)
      ensures this.devices == devices
    {
      this.devices := devices;
    }

    /**
     * `find_key_for_temp_sensor` (`role == TemperatureSensor`) and
     * `find_key_for_valve_actuator` (`role == ValveActuator`): walks the
     * devices in iteration order and keeps the key of the last one whose
     * suffix occurs in the topic.
     */
    method FindKey(topic: string, role: Role) returns (keyFound: Option<string>)
      ensures keyFound == ResolveKey(devices, topic, role)
      ensures keyFound.None? <==> forall i :: 0 <= i < |devices| ==> !MatchesAt(devices, i, topic, role)
      ensures keyFound.Some? ==>
                exists i :: 0 <= i < |devices| && devices[i].0 == keyFound.value
                            && MatchesAt(devices, i, topic, role)
                            && forall j :: i < j < |devices| ==> !MatchesAt(devices, j, topic, role)
    {
      keyFound := None;
      for i := 0 to |devices|
        invariant keyFound == ResolveKey(devices[..i], topic, role)
      {
        assert devices[..i + 1][..i] == devices[..i];
        if Contains(topic, Suffix(devices[i].1, role)) {
          keyFound := Some(devices[i].0);
        }
      }
      assert devices[..|devices|] == devices;
      ResolveKeyIsLastMatch(devices, topic, role);
    }

    /**
     * `handle_message`: the sensor step and then, independently, the valve
     * step, each writing into the store what `HandleSpec` says.
     */
    method HandleMessage(message: Payload, topic: string, state: State.State) returns (outcome: HandleOutcome)
      requires state.Valid()
      modifies state.devicesState.Values
      ensures state.Valid()
      ensures state.GetDevicesState() == HandleSpec(devices, topic, message, old(state.GetDevicesState())).devicesState
      ensures outcome == HandleSpec(devices, topic, message, old(state.GetDevicesState())).outcome
    {
      var keyTempSensor := FindKey(topic, TemperatureSensor);
      if keyTempSensor.Some? {
        if message.asTemperatureSensor.None? {
          return DecodePanic(TemperatureSensor);
        }
        state.UpdateTempSensorValue(keyTempSensor.value, message.asTemperatureSensor.value);
      }
      var keyValveActuator := FindKey(topic, ValveActuator);
      if keyValveActuator.Some? {
        if message.asThermoValve.None? {
          return DecodePanic(ValveActuator);
        }
        state.UpdateValveActuatorValue(keyValveActuator.value, message.asThermoValve.value);
      }
      return Handled;
    }
  }
}
