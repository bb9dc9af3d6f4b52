// ESP32_Code/src/mqtt_client.cpp: the ESP32 node that publishes its network
// measurements and GPS position to a ThingSpeak-style channel topic, with the device
// id as the last field and no timestamp.
module Esp32Client {
  import opened Text
  import opened Numbers
  import opened Board
  import opened Wire

  /** `channelID` of ESP32_Code/include/config.h. */
  const ChannelId: int := 3150959
  /** `DEVICE_ID` of ESP32_Code/src/config.cpp. */
  const DeviceId: string := "ESP32_01"
  /** Client id, user and password of ESP32_Code/src/config.cpp, all empty. */
  const Login: Credentials := Account("", "", "")
  const RetryMs: nat := 2000

  /** What `publishData` reads from the sensors, each once. */
  datatype Readings = Readings(rssi: real, down: real, up: real, lat: real, lon: real)

  /** The values of `mqttPublish`, in order: rssi, down and up at 2 decimals, lat and lon at 5, the id. */
  function Values(r: Readings, deviceId: string): seq<string>
  {
    [Fmt(r.rssi, 2), Fmt(r.down, 2), Fmt(r.up, 2), Fmt(r.lat, 5), Fmt(r.lon, 5), deviceId]
  }

  /** The message: the values sent as `field1` to `field6`, joined with '&'. */
  function Message(r: Readings, deviceId: string): string
  {
    Encode(Numbered(Values(r, deviceId)))
  }

  /** The serial lines `mqttPublish` prints after publishing. */
  function PublishReport(topic: string, message: string, ok: bool): seq<string>
  {
    ["Topic: " + topic, "Payload: " + message, if ok then "✅ Publish OK" else "❌ Publish failed"]
  }

  /** What one `mqttPublish` call does: one publish, then its report. */
  function PublishEvents(channel: int, r: Readings, deviceId: string, ok: bool): seq<Event>
  {
    var topic, message := PublishTopic(IntText(channel)), Message(r, deviceId);
    [Sent(topic, message, ok), Report(PublishReport(topic, message, ok))]
  }

  /**
   * An id without '&' gives exactly six `fieldN=value` parts, the values in the order
   * of `Values`: the id is the sixth and there is no timestamp.
   */
  lemma {:induction false} MessageParts(r: Readings, deviceId: string)
    requires '&' !in deviceId
    ensures var parts, vs := Split(Message(r, deviceId), '&'), Values(r, deviceId);
      |parts| == 6 && forall i :: 0 <= i < 6 ==> parts[i] == FieldKey(i + 1) + "=" + vs[i]
  {
    var vs := Values(r, deviceId);
    forall i | 0 <= i < |vs|
      ensures '&' !in vs[i]
    {
      if i == 0 {
        FmtAvoids(r.rssi, 2, '&');
      } else if i == 1 {
        FmtAvoids(r.down, 2, '&');
      } else if i == 2 {
        FmtAvoids(r.up, 2, '&');
      } else if i == 3 {
        FmtAvoids(r.lat, 5, '&');
      } else if i == 4 {
        FmtAvoids(r.lon, 5, '&');
      }
    }
    SplitNumbered(vs);
  }

  /** The global `mqttClient` seen through the board it runs on. */
  class Client {
    const dev: Device

    constructor (dev: Device)
      ensures this.dev == dev
    {
      this.dev := dev;
    }

    /** `connectMQTT`: retry `connect` with the configured login every 2 s until it succeeds. */
    method ConnectMqtt()
      modifies dev
      requires dev.MqttReachable()
      ensures dev.mqttUp && dev.mqttScript == Unused(old(dev.mqttUp), old(dev.mqttScript))
      ensures dev.trace == old(dev.trace) + MqttTrace(old(dev.mqttUp), old(dev.mqttScript), Login, RetryMs)
      ensures dev.wifiUp == old(dev.wifiUp) && dev.wifiScript == old(dev.wifiScript) && dev.fixes == old(dev.fixes)
    {
      dev.ConnectMqtt(Login, RetryMs);
    }

    /** `loopMQTT`: reconnect only when the session is down, then poll once. */
    method LoopMqtt()
      modifies dev
      requires dev.MqttReachable()
      ensures dev.mqttUp && dev.mqttScript == Unused(old(dev.mqttUp), old(dev.mqttScript))
      ensures dev.trace == old(dev.trace) + MqttTrace(old(dev.mqttUp), old(dev.mqttScript), Login, RetryMs) + [Poll]
      ensures dev.wifiUp == old(dev.wifiUp) && dev.wifiScript == old(dev.wifiScript) && dev.fixes == old(dev.fixes)
    {
      if !dev.mqttUp {
        ConnectMqtt();
      } else {
        assert old(dev.trace) + MqttTrace(old(dev.mqttUp), old(dev.mqttScript), Login, RetryMs) == dev.trace;
      }
      dev.Emit(Poll);
    }

    /**
     * `mqttPublish`: one publish of the six-field message on the channel's publish topic;
     * the transport's answer is returned unchanged and the message is never retried.
     */
    method MqttPublish(channel: int, r: Readings, deviceId: string, delivered: bool) returns (ok: bool)
      modifies dev
      ensures ok == (old(dev.mqttUp) && delivered)
      ensures dev.trace == old(dev.trace) + PublishEvents(channel, r, deviceId, ok)
      ensures dev.mqttUp == old(dev.mqttUp) && dev.mqttScript == old(dev.mqttScript)
      ensures dev.wifiUp == old(dev.wifiUp) && dev.wifiScript == old(dev.wifiScript) && dev.fixes == old(dev.fixes)
    {
      var message := Message(r, deviceId);
      var topic := PublishTopic(IntText(channel));
      ok := dev.Publish(topic, message, delivered);
      dev.Emit(Report(PublishReport(topic, message, ok)));
    }

    /** `publishData`: the readings taken once each, published once on `channelID` with `DEVICE_ID`. */
    method PublishData(r: Readings, delivered: bool)
      modifies dev
      ensures dev.trace == old(dev.trace) + PublishEvents(ChannelId, r, DeviceId, old(dev.mqttUp) && delivered)
      ensures dev.mqttUp == old(dev.mqttUp) && dev.mqttScript == old(dev.mqttScript)
      ensures dev.wifiUp == old(dev.wifiUp) && dev.wifiScript == old(dev.wifiScript) && dev.fixes == old(dev.fixes)
    {
      var _ := MqttPublish(ChannelId, r, DeviceId, delivered);
    }
  }
}
