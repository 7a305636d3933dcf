/**
 * The device state store (`src/state.rs`): one coupled-readings entry per
 * configured device key, created at start-up; readings are written into the
 * entry of their device in place, and no entry is ever added or removed.
 */
module State {
  import opened Model
  import Config

  /**
   * The value of the store after a setter call on the entry `key`: that entry
   * changes as the call says, every other entry stays as it was, and an
   * unknown key changes nothing.
   */
  function UpdateEntry(m: map<string, Snapshot>, key: string, u: Update): (r: map<string, Snapshot>)
    ensures r.Keys == m.Keys
    ensures key in m ==> r[key] == Apply(m[key], u)
    ensures forall k :: k in m && k != key ==> r[k] == m[k]
    ensures key !in m ==> r == m
  {
    if key in m then m[key := Apply(m[key], u)] else m
  }

  /** The value of a freshly built store: every key starts from `Initial`. */
  function InitialDevicesState(keys: set<string>): (m: map<string, Snapshot>)
    ensures m.Keys == keys
    ensures forall k :: k in m ==> m[k] == Initial && !m[k].IsReady()
  {
    map k | k in keys :: Initial
  }

  /** One store update: the device key and the setter call. */
  datatype KeyedUpdate = KeyedUpdate(key: string, update: Update)

  /** The value of the store after a sequence of updates, first to last. */
  function UpdateAll(m: map<string, Snapshot>, ups: seq<KeyedUpdate>): (r: map<string, Snapshot>)
    decreases |ups|
  {
    if ups == [] then m else UpdateAll(UpdateEntry(m, ups[0].key, ups[0].update), ups[1..])
  }

  /** The setter calls among `ups` that are addressed to `key`, in order. */
  function UpdatesFor(ups: seq<KeyedUpdate>, key: string): (us: seq<Update>)
    decreases |ups|
  {
    if ups == [] then []
    else (if ups[0].key == key then [ups[0].update] else []) + UpdatesFor(ups[1..], key)
  }

  /**
   * Any sequence of updates leaves the set of keys as it was, and each
   * device's entry evolves exactly as if only the calls addressed to it had
   * been made: updates of other devices never touch it.
   */
  lemma {:induction false} UpdateAllPerDevice(m: map<string, Snapshot>, ups: seq<KeyedUpdate>)
    ensures UpdateAll(m, ups).Keys == m.Keys
    ensures forall k :: k in m ==> UpdateAll(m, ups)[k] == ApplyAll(m[k], UpdatesFor(ups, k))
    decreases |ups|
  {
    if ups != [] {
      var m' := UpdateEntry(m, ups[0].key, ups[0].update);
      UpdateAllPerDevice(m', ups[1..]);
      forall k | k in m
        ensures UpdateAll(m, ups)[k] == ApplyAll(m[k], UpdatesFor(ups, k))
      {
        if ups[0].key == k {
          assert UpdatesFor(ups, k) == [ups[0].update] + UpdatesFor(ups[1..], k);
          assert ([ups[0].update] + UpdatesFor(ups[1..], k))[1..] == UpdatesFor(ups[1..], k);
        } else {
          assert UpdatesFor(ups, k) == UpdatesFor(ups[1..], k);
        }
      }
    }
  }

  /**
   * Starting from a freshly built store, a configured device is ready exactly
   * when the updates included a sensor reading and a valve reading for it.
   */
  lemma ReadyPerDevice(keys: set<string>, ups: seq<KeyedUpdate>, key: string)
    requires key in keys
    ensures key in UpdateAll(InitialDevicesState(keys), ups)
    ensures UpdateAll(InitialDevicesState(keys), ups)[key].IsReady()
            <==> HasSensorUpdate(UpdatesFor(ups, key)) && HasValveUpdate(UpdatesFor(ups, key))
  {
    UpdateAllPerDevice(InitialDevicesState(keys), ups);
    ReadyAfterUpdates(UpdatesFor(ups, key));
  }

  /** `State`: the map from device key to that device's coupled readings. */
  class State {
    /** The map itself never changes after construction; the entries it holds are updated in place. */
    const devicesState: map<string, CoupledReadings>

    /** Distinct keys hold distinct entries, so an update of one entry cannot show through another key. */
    ghost predicate Valid()
    {
      forall k1, k2 :: k1 in devicesState && k2 in devicesState && k1 != k2 ==> devicesState[k1] != devicesState[k2]
    }

    /**
     * `get_devices_state`: the current value of every entry, one per key; a
     * read that changes nothing.
     */
    function GetDevicesState(): (m: map<string, Snapshot>)
      reads devicesState.Values
      ensures m.Keys == devicesState.Keys
      ensures forall k :: k in m ==> m[k] == devicesState[k].Value()
    {
      map k | k in devicesState :: devicesState[k].Value()
    }

    /** `State::new`: one fresh entry per configured device key. */
    constructor (devices: Config.Devices)
      ensures Valid()
      ensures fresh(devicesState.Values)
      ensures devicesState.Keys == Config.Keys(devices)
      ensures GetDevicesState() == InitialDevicesState(Config.Keys(devices))
    {
      var m: map<string, CoupledReadings> := map[];
      for i := 0 to |devices|
        invariant m.Keys == Config.Keys(devices[..i])
        invariant forall k :: k in m ==> fresh(m[k]) && m[k].Value() == Initial
        invariant forall k1, k2 :: k1 in m && k2 in m && k1 != k2 ==> m[k1] != m[k2]
      {
        var entry := new CoupledReadings();
        m := m[devices[i].0 := entry];
        assert devices[..i + 1] == devices[..i] + [devices[i]];
      }
      assert devices[..|devices|] == devices;
      devicesState := m;
    }

    /**
     * `update_temp_sensor_value`: a known key has its entry's sensor reading
     * replaced and its sensor flag set; every other entry is untouched, and an
     * unknown key leaves the whole store as it was.
     */
    method UpdateTempSensorValue(key: string, tempSensor: TemperatureSensorReading)
      requires Valid()
      modifies devicesState.Values
      ensures Valid()
      ensures GetDevicesState() == UpdateEntry(old(GetDevicesState()), key, SensorUpdate(tempSensor))
      ensures forall k :: k in devicesState && k != key ==> devicesState[k].Value() == old(devicesState[k].Value())
    {
      if key in devicesState {
        devicesState[key].SetTempSensor(tempSensor);
      } else {
        // the key is not in the store: the error is logged and nothing changes
      }
    }

    /**
     * `update_valve_actuator_value`: a known key has its entry's valve reading
     * replaced and its valve flag set; every other entry is untouched, and an
     * unknown key leaves the whole store as it was.
     */
    method UpdateValveActuatorValue(key: string, valveActuator: ThermoValveReading)
      requires Valid()
      modifies devicesState.Values
      ensures Valid()
      ensures GetDevicesState() == UpdateEntry(old(GetDevicesState()), key, ValveUpdate(valveActuator))
      ensures forall k :: k in devicesState && k != key ==> devicesState[k].Value() == old(devicesState[k].Value())
    {
      if key in devicesState {
        devicesState[key].SetValveActuator(valveActuator);
      } else {
        // the key is not in the store: the error is logged and nothing changes
      }
    }
  }
}
