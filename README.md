# Thermostat valve calibrator: a Dafny model

This project models the core of a small service that keeps a Zigbee
thermostatic valve's displayed temperature in line with a separate
reference temperature sensor. The service listens to both devices'
telemetry over MQTT. It keeps the latest readings of every configured
sensor/valve pairing and computes the calibration offset the valve should
apply.

The model covers these parts of the service:

- **Calibration engine** (`Calibrator`, over `Float`). This is `src/calibrator.rs`. It starts from the raw offset
  `sensor − (displayed − old calibration)`. It keeps the offset's integer
  part and snaps the fraction to 0, ±0.5 or ±1 using the thresholds 0.33 and
  0.66. Then it clamps the result to ±5. The result is proved to be in
  [-5, 5], on the 0.5-degree grid, of the raw offset's sign, and within
  0.34 of the raw offset clamped to ±5.
- **Coupled readings** (`Model`). This is `src/model.rs`. It is a class whose setters overwrite a reading
  and set that reading's flag. Its value is the datatype `Snapshot`. The
  lemmas cover any sequence of setter calls: flags are never cleared,
  readiness means both kinds of reading were seen, and the getters return
  the last value set.
- **Device state store** (`State`). This is `src/state.rs`. It is a class holding a constant map from
  device key to a `CoupledReadings` object. The entries are updated in place.
  Its value is `GetDevicesState()`. Each update changes at most the addressed
  entry. An unknown key changes nothing. Across any sequence of updates, the
  key set stays fixed and each device's entry evolves from its own updates
  only.
- **Topic router and message handler** (`MessageHandler`). This is `src/message_handler.rs`. A device
  owns a topic when its configured suffix occurs in the topic as a
  substring. When several devices match, the last one in the map's
  iteration order wins. The sensor step and the valve step are independent.
- **Subscription topics** (`Config`, `LibConfig`). This is `src/config.rs` and its earlier copy
  `src/lib.rs`. The sensor topics come first, then the valve topics. Each
  topic is `base_topic/suffix`. There is one QoS entry per topic.
- **The original single-device loop** (`MainLoop`). This is `src/main.rs`. It has the older
  calibration function (thresholds 0.25 and 0.75, no sign handling, no
  clamp). It also has the three-variable step, the gate and the publish
  decision, and the loop over a sequence of deliveries.

Some things are inputs rather than code:

- The map's iteration order is an explicit sequence of `(key, DeviceConfig)` pairs. "Last match wins" is relative to that sequence.
- JSON decoding is an input: a payload arrives already decoded as each kind of reading, or marked as failed.
- A message's string form in `src/main.rs` is also an input.

What the code does in the places where a reader might expect otherwise:

- The message handler only updates the store. It computes no calibration and publishes nothing (src/message_handler.rs:18-32).
- The handler's sensor check and valve check are two independent `if`s. A topic that matches both gets both updates, sensor first (src/message_handler.rs:19, 25).
- A payload that fails to decode on a resolved topic panics through `unwrap`; the model calls this `DecodePanic`. When the valve decode fails, the sensor update made just before it stays (src/message_handler.rs:20, 26).
- The gate in `src/main.rs` requires the sensor temperature and the old calibration to be positive. It does not look at the displayed temperature (src/main.rs:109).

The third worked example beside the older calibration function expects
1.0. Its raw offset is 0.3, and the 0.25/0.75 thresholds map that to 0.5,
which is also what the example's own comment says. `MainLoop.TestExamples`
proves the function's result, 0.5.

## Model

| member | source | states |
|---|---|---|
| `Float.Abs` | src/calibrator.rs:16 | `abs` (also used at line 7) is non-negative and equal to the value or to its negation |
| `Float.Signum` | src/calibrator.rs:20-22 | `signum` (also used at line 10) is 1.0 exactly for values at or above zero, zero included, -1.0 exactly for negative values, and signum times abs gives the value back |
| `Float.Trunc` | src/calibrator.rs:6 | `trunc` rounds toward zero: the magnitude of the integer part is at most the value's magnitude and less than one below it, and its sign is the value's sign |
| `Float.Fract` | src/calibrator.rs:5 | `fract` is the rest after the integer part: the value is the integer part plus it, it lies strictly inside (-1, 1), and it has the value's sign |
| `Calibrator.RoundToCorrectFraction` | src/calibrator.rs:15-24 | the bucket is 0 exactly for abs(f) ≤ 0.33, ±0.5 exactly for 0.33 < abs(f) ≤ 0.66, ±1 exactly for abs(f) > 0.66, each in f's direction; for a true fraction it is within 0.34 of f |
| `Calibrator.Candidate` | src/calibrator.rs:4-6 | integer part plus bucket lies on the 0.5 grid, within 0.34 of the raw offset, and has the offset's sign; an offset of at least 5 in size gives a candidate of at least 5 in size |
| `Calibrator.ComputeNewCalibration` | src/calibrator.rs:3-13 | for every input the result is in [-5, 5] and a multiple of 0.5; it is within 0.34 of the raw offset `sensor − (shown − old)` limited to ±5; it has the raw offset's sign |
| `Calibrator.ClampsCandidate` | src/calibrator.rs:7-11 | a candidate with abs(c) ≤ 5 is returned unchanged, one above 5 becomes 5 and one below -5 becomes -5 |
| `Calibrator.TestExamples` | src/calibrator.rs:30-48 | the five worked examples: 4.5, 1.0, -2.0, -5.0, 5.0 |
| `Model.Apply` | src/model.rs:32-48 | a sensor call replaces the sensor reading, sets its flag and leaves the valve side alone; a valve call does the converse |
| `Model.FlagsAfterUpdates` | src/model.rs:32-48 | after any sequence of setter calls a flag is set exactly when it was set before or a call of its kind occurred: no call clears a flag |
| `Model.ReadyAfterUpdates` | src/model.rs:24-56 | from `new()`, the readings are ready exactly when the calls included a sensor call and a valve call, in any order |
| `Model.LastReadingWins` | src/model.rs:32-52 | after any sequence of setter calls each getter returns the argument of the last call of its kind, or the earlier value if there was none |
| `Model.CoupledReadings.constructor` | src/model.rs:24-31 | `new` gives zero readings and both flags false, so not ready |
| `Model.CoupledReadings.SetTempSensor` | src/model.rs:32-37 | the sensor reading becomes the argument and its flag is true; the valve reading and the valve flag are unchanged |
| `Model.CoupledReadings.GetTempSensor` | src/model.rs:39-41 | returns the stored sensor reading, which `Model.LastReadingWins` shows is the argument of the last `set_temp_sensor` |
| `Model.CoupledReadings.SetValveActuator` | src/model.rs:43-48 | the valve reading becomes the argument and its flag is true; the sensor reading and the sensor flag are unchanged |
| `Model.CoupledReadings.GetValveActuator` | src/model.rs:50-52 | returns the stored valve reading, which `Model.LastReadingWins` shows is the argument of the last `set_valve_actuator` |
| `Model.CoupledReadings.IsReadyToBeCalibrated` | src/model.rs:54-56 | ready exactly when the snapshot of the object is ready, i.e. both readings have been stored (so `Model.ReadyAfterUpdates` applies to the object) |
| `Model.ReadyOnceBothReadingsSeen` | src/model.rs:24-56 | a fresh object is not ready and still is not after one reading; after a sensor and a valve reading, in either order, it is |
| `State.UpdateEntry` | src/state.rs:19-42 | an update keeps the key set, applies the setter to the addressed entry only, and leaves the whole map unchanged for an unknown key |
| `State.InitialDevicesState` | src/state.rs:12-18 | exactly the configured keys, each holding the fresh, unready readings |
| `State.UpdateAllPerDevice` | src/state.rs:12-42 | after any sequence of updates the key set is the one built at construction, and each entry equals its initial value after only the calls addressed to its key |
| `State.ReadyPerDevice` | src/state.rs:12-42 | from a fresh store, a device is ready exactly when the updates included a sensor and a valve reading for that key |
| `State.State.constructor` | src/state.rs:12-18 | `new` creates one fresh, distinct entry per configured device key, each equal to the fresh readings |
| `State.State.GetDevicesState` | src/state.rs:44-46 | `get_devices_state` reads the current value of every entry, with exactly the store's keys, and changes nothing |
| `State.State.UpdateTempSensorValue` | src/state.rs:19-30 | a known key's entry gets `set_temp_sensor`; every other entry is unchanged; an unknown key leaves the store as it was |
| `State.State.UpdateValveActuatorValue` | src/state.rs:31-42 | a known key's entry gets `set_valve_actuator`; every other entry is unchanged; an unknown key leaves the store as it was |
| `Text.ContainsIffOccurs` | src/message_handler.rs:37 | `contains` holds exactly when the needle occurs at some position of the topic |
| `MessageHandler.ResolveKeyIsLastMatch` | src/message_handler.rs:34-52 | resolution gives `None` exactly when no device's suffix occurs in the topic; otherwise it gives the key of a matching device that no later device in iteration order matches |
| `MessageHandler.ResolvedKeyIsConfigured` | src/message_handler.rs:19-29 | a resolved key is a configured key, so a store built from the same devices has an entry for it |
| `MessageHandler.SubscribedTopicResolves` | src/config.rs:45-59 | every subscription topic `base/suffix` resolves in its role, to the device it was built from or to a later one, because it contains its own suffix |
| `MessageHandler.HandleKeepsKeys` | src/message_handler.rs:18-32 | handling a message never adds or removes a store key |
| `MessageHandler.UnmatchedTopicIsIgnored` | src/message_handler.rs:18-32 | a topic with neither kind of suffix leaves the store unchanged, without error |
| `MessageHandler.SensorTopicUpdatesOnlySensor` | src/message_handler.rs:19-24 | a topic with a sensor suffix but no valve suffix changes only the sensor reading and flag of the resolved device |
| `MessageHandler.BothRolesApplySensorFirst` | src/message_handler.rs:18-31 | a topic that resolves in both roles gets both updates, sensor first, then valve |
| `MessageHandler.DecodeFailurePanics` | src/message_handler.rs:20-26 | a failed decode on a resolved topic is a panic: before any write for the sensor, after the sensor write for the valve |
| `MessageHandler.MessageHandler.constructor` | src/message_handler.rs:12-16 | the handler keeps the configured devices |
| `MessageHandler.MessageHandler.FindKey` | src/message_handler.rs:34-52 | both `find_key_*`: `None` exactly when no suffix of the role occurs in the topic, otherwise the last matching key in iteration order |
| `MessageHandler.MessageHandler.HandleMessage` | src/message_handler.rs:18-32 | the store and the outcome after `handle_message` are those of the sensor step followed by the valve step, as `HandleSpec` defines them |
| `Config.SubscriptionTopics` | src/config.rs:45-59 | 2n topics: topic i is `base/` plus device i's sensor suffix, topic n+i is `base/` plus the same device's valve suffix |
| `Config.NewRunningConfig` | src/config.rs:45-66 | the parsed MQTT settings and devices unchanged, the subscription topics as above, and as many QoS entries as topics, each equal to `qos_value` |
| `LibConfig.NewRunningConfig` | src/lib.rs:53-74 | the same for the earlier configuration: sensor topics then valve topics, topic i and n+i from one device, QoS list of equal length filled with `qos_value`, settings and devices unchanged |
| `MainLoop.RoundToCorrectFraction` | src/main.rs:145-153 | 0 exactly for 0 ≤ f ≤ 0.25, 0.5 exactly for 0.25 < f ≤ 0.75, 1.0 for every other f, negative fractions included |
| `MainLoop.ComputeNewCalibration` | src/main.rs:139-143 | the older result is on the 0.5 grid, and for a non-negative raw offset it is within 0.25 of it |
| `MainLoop.NegativeFractionOvershoots` | src/main.rs:145-153 | a raw offset with a negative fractional part gives a result more than one degree above the raw offset |
| `MainLoop.WrongDirectionExample` | src/main.rs:139-153 | raw offset -0.9 (sensor 20.1, calibration 0.5, displayed 21.5) gives +1.0, and the loop publishes that +1.0 |
| `MainLoop.NoClampExample` | src/main.rs:139-143 | nothing clamps the older result: a ten-degree offset gives 10.0 |
| `MainLoop.TestExamples` | src/main.rs:159-171 | the examples give 4.5 and 1.0; the third gives 0.5, not the 1.0 its assertion expects |
| `MainLoop.PublishDecision` | src/main.rs:109-119 | a value is published exactly when sensor temperature and old calibration are positive and the new calibration differs from the old one, and the published value is that new calibration |
| `MainLoop.Step` | src/main.rs:89-119 | a lost connection changes nothing and publishes nothing; a message panics exactly when its string form contains "temp_sensor" or "thermo_valve" and the payload does not decode as that reading; otherwise "temp_sensor" in the message sets the sensor temperature, "thermo_valve" sets the old calibration and displayed temperature, other variables are kept, and the publish decision is taken on the new variables |
| `MainLoop.SensorMessageSetsOnlySensor` | src/main.rs:91-98 | a "temp_sensor" message that is not a "thermo_valve" one changes only `temp_sensor` |
| `MainLoop.ValveMessageSetsOnlyValve` | src/main.rs:99-107 | a "thermo_valve" message that is not a "temp_sensor" one changes only `temp_calibration_old` and `temp_show_on_valve_old` |
| `MainLoop.OtherMessageKeepsState` | src/main.rs:89-119 | any other message keeps the three variables, but the publish decision is still taken |
| `MainLoop.PublishedOnlyThroughGate` | src/main.rs:109-118 | whatever a step publishes passed the gate, is the new calibration, differs from the old one and is on the 0.5 grid |
| `MainLoop.GateIgnoresDisplayedTemperature` | src/main.rs:109-110 | with displayed temperature 0.0, sensor 20.0 and calibration 1.0, 21.0 is published |
| `MainLoop.RunPublishesGridValues` | src/main.rs:85-130 | every value a run of the loop publishes is on the 0.5 grid |
| `MainLoop.Run` | src/main.rs:85-130 | the loop from all-zero variables ends as `RunFrom` says (stream end or decode panic), and publishes only grid values |

## Findings

| source | as written | input that shows it | evidently intended | confidence | as-written member | corrected member |
|---|---|---|---|---|---|---|
| src/main.rs:145-153 | a negative fraction falls into the 1.0 bucket. A raw offset with a negative fractional part is then rounded up past the next integer, away from the offset. | sensor 20.1, calibration 0.5, displayed 21.5: the raw offset is -0.9, the result is +1.0, and it is published | snap the fraction to 0, ±0.5 or ±1 in the offset's own direction, as the later `src/calibrator.rs:15-24` does with `abs` and `signum`: the result has the offset's sign and is within 0.34 of it | medium, not executed | `MainLoop.NegativeFractionOvershoots` | `Calibrator.ComputeNewCalibration` |

`MainLoop` models the older program as written, so it keeps the older
rounding. The corrected rounding is the repository's own later version in
`Calibrator`. The model proves that version is within 0.34 of the raw offset
limited to ±5.

## Left out

- The MQTT client and its event loop (`src/mqtt_client.rs`) are left out: the spawned task per message and the subscription requests. They are asynchronous I/O, and the order in which spawned tasks reach the store cannot be stated in a sequential model. `HandleMessage` is one message handled alone.
- The HTTP state endpoint (`src/server.rs`) is left out: the warp route and JSON serialisation. It only serialises `State.State.GetDevicesState`, which is modelled.
- The `Arc<Mutex<State>>` locking in `src/message_handler.rs` is left out. The store is a single-threaded object, so lock poisoning and interleaving are not modelled.
- Logging is left out. This includes the error logged for an unknown key in `src/state.rs`; the model leaves the store unchanged there.
- File and YAML reading in `RunningConfig::new` is left out. So is the `Result` error path it gives for a missing or malformed file. The model starts from the parsed configuration.
- JSON decoding with serde is left out. Decoded readings, or a failed decode, are inputs.
- `HashMap` iteration order is not specified by Rust. It is an explicit sequence, and "last match wins" refers to that sequence. The model does not require the keys in that sequence to be distinct.
- The plumbing in `src/main.rs` is left out: logger setup, creating and connecting the paho client, subscribing to the fixed topics, and the reconnect-with-sleep loop. A lost connection is a `Disconnected` delivery that changes nothing.
- The actual `cli.publish` call in `src/main.rs` is left out, along with its failure. The `?` on a failed publish would end the loop; the model does not represent that. A publish is the value `Step` returns; its fixed topic is not modelled.
- `f32` arithmetic is not modelled; everything is over exact reals. This leaves out rounding error in `trunc`, `fract` and the subtraction, NaN and `signum(-0.0)`. The thresholds 0.33, 0.66, 0.25 and 0.75 are exact here. The worked examples hold over reals; they are not claimed for `f32`.
- The equality test `temp_calibration_new != temp_calibration_old` in `src/main.rs` is exact real equality here, not `f32` equality.
