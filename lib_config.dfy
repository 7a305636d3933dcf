/**
 * The earlier copy of the running configuration (`src/lib.rs`): a smaller
 * set of MQTT settings, the same device pairings and the same construction
 * of the subscription topics and QoS levels.
 */
module LibConfig {
  import Config

  /** `MqttConfig` of the earlier version. */
  datatype MqttConfig = MqttConfig(server: string, baseTopic: string, qosValue: Config.i32)

  /** `ReadingConfig` of the earlier version. */
  datatype ReadingConfig = ReadingConfig(mqtt: MqttConfig, devices: Config.Devices)

  /** `RunningConfig` of the earlier version. */
  datatype RunningConfig = RunningConfig(mqtt: MqttConfig, devices: Config.Devices, topics: seq<string>, qos: seq<Config.i32>)

  /**
   * `RunningConfig::new` once the file has been parsed: sensor topics first,
   * valve topics after them, one QoS entry per topic, settings and devices
   * carried over unchanged.
   */
  method NewRunningConfig(initConfig: ReadingConfig) returns (config: RunningConfig)
    ensures config.mqtt == initConfig.mqtt && config.devices == initConfig.devices
    ensures |config.topics| == 2 * |initConfig.devices|
    ensures forall i :: 0 <= i < |initConfig.devices| ==>
              config.topics[i] == Config.Topic(initConfig.mqtt.baseTopic, initConfig.devices[i].1.temperatureSensor)
    ensures forall i :: 0 <= i < |initConfig.devices| ==>
              config.topics[|initConfig.devices| + i] == Config.Topic(initConfig.mqtt.baseTopic, initConfig.devices[i].1.valveActuator)
    ensures |config.qos| == |config.topics|
    ensures forall i :: 0 <= i < |config.qos| ==> config.qos[i] == initConfig.mqtt.qosValue
  {
    var topics := Config.SubscriptionTopics(initConfig.mqtt.baseTopic, initConfig.devices);
    var qos := seq(|topics|, _ => initConfig.mqtt.qosValue);
    config := RunningConfig(initConfig.mqtt, initConfig.devices, topics, qos);
  }
}
