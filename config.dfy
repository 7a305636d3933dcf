/**
 * The running configuration (`src/config.rs`): the MQTT connection settings
 * and the configured device pairings, read from a YAML file, plus the list of
 * topics to subscribe to and one QoS level per topic.
 */
module Config {
  import opened Wrappers

  /** Rust's `u16`. */
  newtype u16 = x: int | 0 <= x < 0x1_0000

  /** Rust's `i32`. */
  newtype i32 = x: int | -0x8000_0000 <= x < 0x8000_0000

  /** One pairing: the topic suffixes of its reference sensor and of its valve. */
  datatype DeviceConfig = DeviceConfig(temperatureSensor: string, valveActuator: string)

  /** The two kinds of device a pairing names. */
  datatype Role = TemperatureSensor | ValveActuator

  /** The configured topic suffix of the device of kind `role`. */
  function Suffix(device: DeviceConfig, role: Role): (suffix: string)
  {
    match role
    case TemperatureSensor => device.temperatureSensor
    case ValveActuator => device.valveActuator
  }

  /**
   * The `devices` map of the configuration, listed in the order in which the
   * map iterates: pairs of device key and device configuration.
   */
  type Devices = seq<(string, DeviceConfig)>

  /** The keys of the `devices` map. */
  function Keys(devices: Devices): (keys: set<string>)
    ensures forall i :: 0 <= i < |devices| ==> devices[i].0 in keys
    ensures forall k :: k in keys ==> exists i :: 0 <= i < |devices| && devices[i].0 == k
  {
    set i | 0 <= i < |devices| :: devices[i].0
  }

  /** `MqttConfig` */
  datatype MqttConfig = MqttConfig(
    server: string,
    host: string,
    baseTopic: string,
    port: u16,
    username: Option<string>,
    password: Option<string>,
    qosValue: i32)

  /** `ReadingConfig`: the configuration as parsed from the file. */
  datatype ReadingConfig = ReadingConfig(mqtt: MqttConfig, devices: Devices)

  /** `RunningConfig`: the parsed configuration together with the subscriptions derived from it. */
  datatype RunningConfig = RunningConfig(mqtt: MqttConfig, devices: Devices, topics: seq<string>, qos: seq<i32>)

  /** `format!("{}/{}", base_topic, suffix)` */
  function Topic(baseTopic: string, suffix: string): (topic: string)
  {
    baseTopic + "/" + suffix
  }

  /**
   * The subscription topics: first every device's sensor topic, then, appended
   * to the same list, every device's valve topic, both in the map's iteration
   * order, so that topic `i` and topic `n + i` belong to the same device.
   */
  method SubscriptionTopics(baseTopic: string, devices: Devices) returns (topics: seq<string>)
    ensures |topics| == 2 * |devices|
    ensures forall i :: 0 <= i < |devices| ==> topics[i] == Topic(baseTopic, devices[i].1.temperatureSensor)
    ensures forall i :: 0 <= i < |devices| ==> topics[|devices| + i] == Topic(baseTopic, devices[i].1.valveActuator)
  {
    topics := [];
    for i := 0 to |devices|
      invariant |topics| == i
      invariant forall j :: 0 <= j < i ==> topics[j] == Topic(baseTopic, devices[j].1.temperatureSensor)
    {
      topics := topics + [Topic(baseTopic, devices[i].1.temperatureSensor)];
    }
    for i := 0 to |devices|
      invariant |topics| == |devices| + i
      invariant forall j :: 0 <= j < |devices| ==> topics[j] == Topic(baseTopic, devices[j].1.temperatureSensor)
      invariant forall j :: 0 <= j < i ==> topics[|devices| + j] == Topic(baseTopic, devices[j].1.valveActuator)
    {
      topics := topics + [Topic(baseTopic, devices[i].1.valveActuator)];
    }
  }

  /**
   * `RunningConfig::new` once the file has been parsed: the parsed settings
   * and devices unchanged, the subscription topics, and the configured QoS
   * level once per topic.
   */
  method NewRunningConfig(initConfig: ReadingConfig) returns (config: RunningConfig)
    ensures config.mqtt == initConfig.mqtt && config.devices == initConfig.devices
    ensures |config.topics| == 2 * |initConfig.devices|
    ensures forall i :: 0 <= i < |initConfig.devices| ==>
              config.topics[i] == Topic(initConfig.mqtt.baseTopic, initConfig.devices[i].1.temperatureSensor)
    ensures forall i :: 0 <= i < |initConfig.devices| ==>
              config.topics[|initConfig.devices| + i] == Topic(initConfig.mqtt.baseTopic, initConfig.devices[i].1.valveActuator)
    ensures |config.qos| == |config.topics|
    ensures forall i :: 0 <= i < |config.qos| ==> config.qos[i] == initConfig.mqtt.qosValue
  {
    var topics := SubscriptionTopics(initConfig.mqtt.baseTopic, initConfig.devices);
    var qos := seq(|topics|, _ => initConfig.mqtt.qosValue);
    config := RunningConfig(initConfig.mqtt, initConfig.devices, topics, qos);
  }
}
