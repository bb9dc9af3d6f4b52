// __ESP32_Code_Temoral/src/mqtt_client.cpp: the variant of the ESP32 node that
// publishes to a local Mosquitto broker, with named keys and one fixed topic.
module TemoralClient {
  import opened Text
  import opened Numbers
  import opened Board
  import opened Wire

  /** `MQTT_CLIENT_ID` of ESP32_Code_Temoral/src/config.cpp; the broker takes no user or password. */
  const Login: Credentials := ClientOnly("ESP32_TEST")
  /** `channelID` of the same file, passed along but never used. */
  const ChannelId: int := 0
  const DeviceId: string := "ESP32_01"
  const RetryMs: nat := 2000
  /** The one topic every message goes to. */
  const Topic: string := "esp32/data"

  /** The key of each value, in order. */
  const Keys6: seq<string> := ["rssi", "down", "up", "lat", "lon", "device"]

  /** What `publishData` reads from the radio after `updateGPS`. */
  datatype Network = Network(rssi: real, down: real, up: real)

  /** rssi, down and up at 2 decimals, lat and lon at 5, then the id. */
  function Values(n: Network, lat: real, lon: real, deviceId: string): seq<string>
  {
    [Fmt(n.rssi, 2), Fmt(n.down, 2), Fmt(n.up, 2), Fmt(lat, 5), Fmt(lon, 5), deviceId]
  }

  function Message(n: Network, lat: real, lon: real, deviceId: string): string
  {
    Encode(Named(Keys6, Values(n, lat, lon, deviceId)))
  }

  function PublishReport(message: string, ok: bool): seq<string>
  {
    ["Topic: " + Topic, "Payload: " + message, if ok then "✅ Publish OK" else "❌ Publish FAILED"]
  }

  function PublishEvents(n: Network, lat: real, lon: real, deviceId: string, ok: bool): seq<Event>
  {
    var message := Message(n, lat, lon, deviceId);
    [Sent(Topic, message, ok), Report(PublishReport(message, ok))]
  }

  /** An id without '&' gives six `key=value` parts in the order rssi, down, up, lat, lon, device. */
  lemma {:induction false} MessageParts(n: Network, lat: real, lon: real, deviceId: string)
    requires '&' !in deviceId
    ensures var parts, vs := Split(Message(n, lat, lon, deviceId), '&'), Values(n, lat, lon, deviceId);
      |parts| == 6 && forall i :: 0 <= i < 6 ==> parts[i] == Keys6[i] + "=" + vs[i]
  {
    var vs := Values(n, lat, lon, deviceId);
    forall i | 0 <= i < |vs|
      ensures '&' !in Keys6[i] && '&' !in vs[i]
    {
      if i == 0 {
        FmtAvoids(n.rssi, 2, '&');
      } else if i == 1 {
        FmtAvoids(n.down, 2, '&');
      } else if i == 2 {
        FmtAvoids(n.up, 2, '&');
      } else if i == 3 {
        FmtAvoids(lat, 5, '&');
      } else if i == 4 {
        FmtAvoids(lon, 5, '&');
      }
    }
    SplitNamed(Keys6, vs);
  }

  class Client {
    const dev: Device

    constructor (dev: Device)
      ensures this.dev == dev
    {
      this.dev := dev;
    }

    /** `connectMQTT`: connect with the client id only, retrying every 2 s until connected. */
    method ConnectMqtt()
      modifies dev
      requires dev.MqttReachable()
      ensures dev.mqttUp && dev.mqttScript == Unused(old(dev.mqttUp), old(dev.mqttScript))
      ensures dev.trace == old(dev.trace) + MqttTrace(old(dev.mqttUp), old(dev.mqttScript), Login, RetryMs)
      ensures dev.wifiUp == old(dev.wifiUp) && dev.wifiScript == old(dev.wifiScript) && dev.fixes == old(dev.fixes)
    {
      dev.ConnectMqtt(Login, RetryMs);
    }

    /** `loopMQTT`: reconnect only when the session is down, then poll once. */
    method LoopMqtt()
      modifies dev
      requires dev.MqttReachable()
      ensures dev.mqttUp && dev.mqttScript == Unused(old(dev.mqttUp), old(dev.mqttScript))
      ensures dev.trace == old(dev.trace) + MqttTrace(old(dev.mqttUp), old(dev.mqttScript), Login, RetryMs) + [Poll]
      ensures dev.wifiUp == old(dev.wifiUp) && dev.wifiScript == old(dev.wifiScript) && dev.fixes == old(dev.fixes)
    {
      if !dev.mqttUp {
        ConnectMqtt();
      } else {
        assert old(dev.trace) + MqttTrace(old(dev.mqttUp), old(dev.mqttScript), Login, RetryMs) == dev.trace;
      }
      dev.Emit(Poll);
    }

    /**
     * `mqttPublish`: the channel argument is ignored, the message always goes to
     * "esp32/data", and the transport's answer is returned unchanged, without retry.
     */
    method MqttPublish(channel: int, n: Network, lat: real, lon: real, deviceId: string, delivered: bool) returns (ok: bool)
      modifies dev
      ensures ok == (old(dev.mqttUp) && delivered)
      ensures dev.trace == old(dev.trace) + PublishEvents(n, lat, lon, deviceId, ok)
      ensures dev.mqttUp == old(dev.mqttUp) && dev.mqttScript == old(dev.mqttScript)
      ensures dev.wifiUp == old(dev.wifiUp) && dev.wifiScript == old(dev.wifiScript) && dev.fixes == old(dev.fixes)
    {
      var message := Message(n, lat, lon, deviceId);
      ok := dev.Publish(Topic, message, delivered);
      dev.Emit(Report(PublishReport(message, ok)));
    }

    /**
     * `publishData`: `updateGPS` takes a fresh GPS snapshot first; the position sent is
     * the one of that snapshot, and the message is published exactly once.
     */
    method PublishData(n: Network, delivered: bool)
      modifies dev
      requires dev.fixes != []
      ensures dev.fixes == old(dev.fixes)[1..]
      ensures dev.trace == old(dev.trace)
        + PublishEvents(n, old(dev.fixes)[0].lat, old(dev.fixes)[0].lon, DeviceId, old(dev.mqttUp) && delivered)
      ensures dev.mqttUp == old(dev.mqttUp) && dev.mqttScript == old(dev.mqttScript)
      ensures dev.wifiUp == old(dev.wifiUp) && dev.wifiScript == old(dev.wifiScript)
    {
      var fix := dev.Sample();
      var _ := MqttPublish(ChannelId, n, fix.lat, fix.lon, DeviceId, delivered);
    }
  }
}
