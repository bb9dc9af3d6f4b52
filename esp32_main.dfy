// ESP32_Code/src/main.cpp: the main loop of the ESP32 node, which keeps the MQTT
// session alive on every pass and publishes at most once per send interval.
module Esp32Main {
  import opened Board
  import Esp32Client

  /** `SEND_INTERVAL` of ESP32_Code/src/config.cpp, in ms. */
  const SendInterval: nat := 20000

  class App {
    const client: Esp32Client.Client
    /** `unsigned long lastSend`, 0 at boot. */
    var lastSend: Millis

    constructor (client: Esp32Client.Client)
      ensures this.client == client && lastSend == 0
    {
      this.client := client;
      lastSend := 0;
    }

    /**
     * One pass of `loop()` with `now` the value `millis()` returns after `loopMQTT`:
     * `loopMQTT` always runs first; `publishData` runs, and `lastSend` becomes `now`,
     * only when `now - lastSend > SEND_INTERVAL` in unsigned arithmetic.
     */
    method Loop(now: Millis, r: Esp32Client.Readings, delivered: bool)
      modifies this, client.dev
      requires client.dev.MqttReachable()
      ensures lastSend == (if Due(now, old(lastSend), SendInterval) then now else old(lastSend))
      ensures client.dev.mqttUp && client.dev.mqttScript == Unused(old(client.dev.mqttUp), old(client.dev.mqttScript))
      ensures client.dev.wifiUp == old(client.dev.wifiUp) && client.dev.wifiScript == old(client.dev.wifiScript)
      ensures client.dev.fixes == old(client.dev.fixes)
      ensures client.dev.trace == old(client.dev.trace)
        + MqttTrace(old(client.dev.mqttUp), old(client.dev.mqttScript), Esp32Client.Login, Esp32Client.RetryMs) + [Poll]
        + (if Due(now, old(lastSend), SendInterval)
           then Esp32Client.PublishEvents(Esp32Client.ChannelId, r, Esp32Client.DeviceId, delivered)
           else [])
    {
      client.LoopMqtt();
      if Due(now, lastSend, SendInterval) {
        client.PublishData(r, delivered);
        lastSend := now;
      } else {
        assert client.dev.trace == client.dev.trace + [];
      }
    }
  }
}
