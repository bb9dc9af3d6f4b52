// Publisher_Node/main.h: the publisher node that reads the GPS until it has a fix,
// measures the network, and publishes seven ThingSpeak-style fields to the channel
// topic, with both publishing and serial printing gated on `millis()`.
module PublisherMain {
  import opened Text
  import opened Numbers
  import opened Board
  import opened Wire
  import Clock
  import Gtu7

  /** `CHANNEL_ID` and `DEVICE_ID` of Publisher_Node/config.h. */
  const ChannelId: string := "test"
  const DeviceId: string := "ESP32_01"
  /** Client id, user and password of Publisher_Node/config.h, all empty. */
  const Login: Credentials := Account("", "", "")
  const MqttRetryMs: nat := 2000
  const GpsRetryMs: nat := 3000
  /** `delayPub` and `delayPrint`, in seconds. */
  const DelayPub: nat := 10
  const DelayPrint: nat := 3
  const PubGap: nat := 1000 * DelayPub
  const PrintGap: nat := 1000 * DelayPrint
  /** `HTTP_CODE_OK`. */
  const HttpOk: int := 200

  /** The outcome of one HTTP transfer: its status code and the rate it would yield. */
  datatype Transfer = Transfer(code: int, mbps: real)

  /**
   * `getThroughputDown`: 0.0 without measuring when WiFi is down, 0.0 when the GET does
   * not answer 200, otherwise the measured rate.
   */
  function ThroughputDown(wifiUp: bool, get: Transfer): (mbps: real)
    ensures mbps != 0.0 ==> wifiUp && get.code == HttpOk && mbps == get.mbps
  {
    if !wifiUp then 0.0 else if get.code != HttpOk then 0.0 else get.mbps
  }

  /**
   * `getThroughputUp`: 0.0 when WiFi is down, when the 100 KB buffer cannot be
   * buffered, or when the POST does not answer 200; otherwise the measured rate.
   */
  function ThroughputUp(wifiUp: bool, buffered: bool, post: Transfer): (mbps: real)
    ensures mbps != 0.0 ==> wifiUp && buffered && post.code == HttpOk && mbps == post.mbps
  {
    if !wifiUp then 0.0 else if !buffered then 0.0 else if post.code != 200 then 0.0 else post.mbps
  }

  /** Everything `buildMQTTMessage` reads besides the position: the radio, the two transfers, the clock. */
  datatype Probe = Probe(rssi: real, get: Transfer, buffered: bool, post: Transfer, epoch: int)

  /**
   * The seven values in the order rssi, down, up, latitude, longitude, date, id; the
   * numbers at the 2 decimals of `String(float)`, the date as an integer.
   */
  function Values(rssi: real, down: real, up: real, lat: real, lon: real, date: int, deviceId: string): seq<string>
  {
    [Fmt(rssi, 2), Fmt(down, 2), Fmt(up, 2), Fmt(lat, 2), Fmt(lon, 2), IntText(date), deviceId]
  }

  /** `buildMQTTMessage` once the readings are taken: `field1` to `field7` joined with '&'. */
  function Message(rssi: real, down: real, up: real, lat: real, lon: real, date: int, deviceId: string): string
  {
    Encode(Numbered(Values(rssi, down, up, lat, lon, date, deviceId)))
  }

  /** The message for a probe: the throughput rules applied, the date shifted to UTC-6. */
  function ProbeMessage(wifiUp: bool, p: Probe, lat: real, lon: real): string
  {
    Message(p.rssi, ThroughputDown(wifiUp, p.get), ThroughputUp(wifiUp, p.buffered, p.post), lat, lon, p.epoch - Clock.UtcOffset, DeviceId)
  }

  /** Six numerals ahead of any id are free of '&'. */
  lemma {:induction false} ValuesClean(a: string, b: string, c: string, d: string, e: string, f: string, id: string)
    requires NumeralChars(a) && NumeralChars(b) && NumeralChars(c) && NumeralChars(d) && NumeralChars(e) && NumeralChars(f)
    ensures forall i :: 0 <= i < 6 ==> '&' !in [a, b, c, d, e, f, id][i]
  {
    NumeralAvoids(a, '&');
    NumeralAvoids(b, '&');
    NumeralAvoids(c, '&');
    NumeralAvoids(d, '&');
    NumeralAvoids(e, '&');
    NumeralAvoids(f, '&');
  }

  /** An id without '&' gives exactly seven `fieldN=value` parts, the id verbatim in the last. */
  lemma {:induction false} MessageParts(rssi: real, down: real, up: real, lat: real, lon: real, date: int, deviceId: string)
    requires '&' !in deviceId
    ensures var parts, vs := Split(Message(rssi, down, up, lat, lon, date, deviceId), '&'), Values(rssi, down, up, lat, lon, date, deviceId);
      |parts| == 7 && forall i :: 0 <= i < 7 ==> parts[i] == FieldKey(i + 1) + "=" + vs[i]
  {
    IntTextNumeral(date);
    FmtShape(rssi, 2);
    FmtShape(down, 2);
    FmtShape(up, 2);
    FmtShape(lat, 2);
    FmtShape(lon, 2);
    ValuesClean(Fmt(rssi, 2), Fmt(down, 2), Fmt(up, 2), Fmt(lat, 2), Fmt(lon, 2), IntText(date), deviceId);
    SplitNumbered(Values(rssi, down, up, lat, lon, date, deviceId));
  }

  /** The id is not escaped: an '&' in it splits the message into more than seven parts. */
  lemma {:induction false} IdNotEscaped(rssi: real, down: real, up: real, lat: real, lon: real, date: int, deviceId: string)
    requires '&' in deviceId
    ensures |Split(Message(rssi, down, up, lat, lon, date, deviceId), '&')| > 7
  {
    IntTextNumeral(date);
    FmtShape(rssi, 2);
    FmtShape(down, 2);
    FmtShape(up, 2);
    FmtShape(lat, 2);
    FmtShape(lon, 2);
    ValuesClean(Fmt(rssi, 2), Fmt(down, 2), Fmt(up, 2), Fmt(lat, 2), Fmt(lon, 2), IntText(date), deviceId);
    NumberedLeaks(Values(rssi, down, up, lat, lon, date, deviceId));
  }

  /** A valid GPS location, the exit condition of `gps_read`. */
  predicate Valid(f: Fix)
  {
    f.valid
  }

  /** What a due `serial_gps` prints, nothing when not due. */
  function PrintEvents(due: bool, lat: real, lon: real, sat: int): seq<Event>
  {
    if due then [Report(Gtu7.SerialLines(lat, lon, sat, 5))] else []
  }

  /** What a due `publishData` prints and publishes, nothing when not due. */
  function PublishEvents(due: bool, payload: string, ok: bool): seq<Event>
  {
    if due then [Report([payload]), Sent(PublishTopic(ChannelId), payload, ok)] else []
  }

  /** The globals of the sketch, on the board it runs on. */
  class Node {
    const dev: Device
    var lat: real
    var lon: real
    var sat: int
    var date: Date
    /** `long lastPub, lastPrint`, compared in unsigned arithmetic against `millis()`. */
    var lastPub: Millis
    var lastPrint: Millis

    constructor (dev: Device)
      ensures this.dev == dev && lat == 0.0 && lon == 0.0 && sat == 0
      ensures date == Date(0, 0, 0, 0, 0, 0) && lastPub == 0 && lastPrint == 0
    {
      this.dev := dev;
      lat, lon, sat := 0.0, 0.0, 0;
      date := Date(0, 0, 0, 0, 0, 0);
      lastPub, lastPrint := 0, 0;
    }

    /** `connectMQTT`: retry `connect` every 2 s until the session is up. */
    method ConnectMqtt()
      modifies dev
      requires dev.MqttReachable()
      ensures dev.mqttUp && dev.mqttScript == Unused(old(dev.mqttUp), old(dev.mqttScript))
      ensures dev.trace == old(dev.trace) + MqttTrace(old(dev.mqttUp), old(dev.mqttScript), Login, MqttRetryMs)
      ensures dev.wifiUp == old(dev.wifiUp) && dev.wifiScript == old(dev.wifiScript) && dev.fixes == old(dev.fixes)
    {
      dev.ConnectMqtt(Login, MqttRetryMs);
    }

    /** `loopMQTT`: `connectMQTT` only when disconnected, then one poll. */
    method LoopMqtt()
      modifies dev
      requires dev.MqttReachable()
      ensures dev.mqttUp && dev.mqttScript == Unused(old(dev.mqttUp), old(dev.mqttScript))
      ensures dev.trace == old(dev.trace) + MqttTrace(old(dev.mqttUp), old(dev.mqttScript), Login, MqttRetryMs) + [Poll]
      ensures dev.wifiUp == old(dev.wifiUp) && dev.wifiScript == old(dev.wifiScript) && dev.fixes == old(dev.fixes)
    {
      if !dev.mqttUp {
        ConnectMqtt();
      } else {
        assert old(dev.trace) + MqttTrace(old(dev.mqttUp), old(dev.mqttScript), Login, MqttRetryMs) == dev.trace;
      }
      dev.Emit(Poll);
    }

    /**
     * `gps_read`: snapshots are taken, with a 3 s pause after each invalid one, until
     * the location is valid; then `get_meters` converts that position once.
     */
    method GpsRead(toMeters: (real, real) -> (real, real))
      modifies this, dev
      requires exists i :: 0 <= i < |dev.fixes| && Valid(dev.fixes[i])
      ensures var k := FirstAccepted(old(dev.fixes), Valid); var fix := old(dev.fixes)[k];
        sat == fix.sat && date == fix.date && (lat, lon) == toMeters(fix.lat, fix.lon)
        && dev.fixes == old(dev.fixes)[k + 1..] && dev.trace == old(dev.trace) + Repeat([Pause(GpsRetryMs)], k)
      ensures lastPub == old(lastPub) && lastPrint == old(lastPrint)
      ensures dev.wifiUp == old(dev.wifiUp) && dev.wifiScript == old(dev.wifiScript)
      ensures dev.mqttUp == old(dev.mqttUp) && dev.mqttScript == old(dev.mqttScript)
    {
      var fix := dev.ReadFix(Valid, GpsRetryMs);
      sat, lat, lon, date := fix.sat, fix.lat, fix.lon, fix.date;
      GetMeters(toMeters);
    }

    /** `get_meters`: the position overwritten by its conversion to metres. */
    method GetMeters(toMeters: (real, real) -> (real, real))
      modifies this
      ensures (lat, lon) == toMeters(old(lat), old(lon))
      ensures sat == old(sat) && date == old(date) && lastPub == old(lastPub) && lastPrint == old(lastPrint)
    {
      var m := toMeters(lat, lon);
      lat, lon := m.0, m.1;
    }

    /**
     * `serial_gps`, with `now` the `millis()` of the check and `later` the one stored:
     * prints, and moves `lastPrint`, only when more than 3000 ms have passed.
     */
    method SerialGps(now: Millis, later: Millis)
      modifies this, dev
      ensures lastPrint == (if Due(now, old(lastPrint), PrintGap) then later else old(lastPrint))
      ensures dev.trace == old(dev.trace) + PrintEvents(Due(now, old(lastPrint), PrintGap), lat, lon, sat)
      ensures lat == old(lat) && lon == old(lon) && sat == old(sat) && date == old(date) && lastPub == old(lastPub)
      ensures dev.wifiUp == old(dev.wifiUp) && dev.wifiScript == old(dev.wifiScript)
      ensures dev.mqttUp == old(dev.mqttUp) && dev.mqttScript == old(dev.mqttScript) && dev.fixes == old(dev.fixes)
    {
      if Due(now, lastPrint, PrintGap) {
        lastPrint := later;
        dev.Emit(Report(Gtu7.SerialLines(lat, lon, sat, 5)));
      }
    }

    /**
     * `publishData`, with `now` the `millis()` of the check and `later` the one stored:
     * when more than 10000 ms have passed, `lastPub` moves first, then the message is
     * printed and published on "channels/test/publish"; otherwise nothing changes.
     */
    method PublishData(now: Millis, later: Millis, p: Probe, delivered: bool)
      modifies this, dev
      ensures lastPub == (if Due(now, old(lastPub), PubGap) then later else old(lastPub))
      ensures dev.trace == old(dev.trace)
        + PublishEvents(Due(now, old(lastPub), PubGap), ProbeMessage(old(dev.wifiUp), p, old(lat), old(lon)), old(dev.mqttUp) && delivered)
      ensures lat == old(lat) && lon == old(lon) && sat == old(sat) && date == old(date) && lastPrint == old(lastPrint)
      ensures dev.wifiUp == old(dev.wifiUp) && dev.wifiScript == old(dev.wifiScript)
      ensures dev.mqttUp == old(dev.mqttUp) && dev.mqttScript == old(dev.mqttScript) && dev.fixes == old(dev.fixes)
    {
      var payload := ProbeMessage(dev.wifiUp, p, lat, lon);
      if Due(now, lastPub, PubGap) {
        lastPub := later;
        Announce(payload, delivered);
      }
    }

    /**
     * `app_loop`: keep the MQTT session, read the GPS until valid, then the gated serial
     * print and the gated publish of the converted position; `printNow`/`printLater` and
     * `pubNow`/`pubLater` are the `millis()` readings of the two gates.
     */
    method AppLoop(toMeters: (real, real) -> (real, real), printNow: Millis, printLater: Millis,
                   pubNow: Millis, pubLater: Millis, p: Probe, delivered: bool)
      modifies this, dev
      requires dev.MqttReachable()
      requires exists i :: 0 <= i < |dev.fixes| && Valid(dev.fixes[i])
      ensures var k := FirstAccepted(old(dev.fixes), Valid); var fix := old(dev.fixes)[k];
        (lat, lon) == toMeters(fix.lat, fix.lon) && sat == fix.sat && date == fix.date && dev.fixes == old(dev.fixes)[k + 1..]
      ensures dev.mqttUp && dev.mqttScript == Unused(old(dev.mqttUp), old(dev.mqttScript))
      ensures lastPrint == (if Due(printNow, old(lastPrint), PrintGap) then printLater else old(lastPrint))
      ensures lastPub == (if Due(pubNow, old(lastPub), PubGap) then pubLater else old(lastPub))
      ensures dev.trace == old(dev.trace) + MqttTrace(old(dev.mqttUp), old(dev.mqttScript), Login, MqttRetryMs) + [Poll]
        + Repeat([Pause(GpsRetryMs)], FirstAccepted(old(dev.fixes), Valid))
        + PrintEvents(Due(printNow, old(lastPrint), PrintGap), lat, lon, sat)
        + PublishEvents(Due(pubNow, old(lastPub), PubGap), ProbeMessage(dev.wifiUp, p, lat, lon), delivered)
      ensures dev.wifiUp == old(dev.wifiUp) && dev.wifiScript == old(dev.wifiScript)
    {
      Sense(toMeters);
      Output(printNow, printLater, pubNow, pubLater, p, delivered);
    }

    /** The first half of `app_loop`: `loopMQTT` then `gps_read`. */
    method Sense(toMeters: (real, real) -> (real, real))
      modifies this, dev
      requires dev.MqttReachable()
      requires exists i :: 0 <= i < |dev.fixes| && Valid(dev.fixes[i])
      ensures var k := FirstAccepted(old(dev.fixes), Valid); var fix := old(dev.fixes)[k];
        (lat, lon) == toMeters(fix.lat, fix.lon) && sat == fix.sat && date == fix.date && dev.fixes == old(dev.fixes)[k + 1..]
        && dev.trace == old(dev.trace) + MqttTrace(old(dev.mqttUp), old(dev.mqttScript), Login, MqttRetryMs) + [Poll]
          + Repeat([Pause(GpsRetryMs)], k)
      ensures dev.mqttUp && dev.mqttScript == Unused(old(dev.mqttUp), old(dev.mqttScript))
      ensures lastPrint == old(lastPrint) && lastPub == old(lastPub)
      ensures dev.wifiUp == old(dev.wifiUp) && dev.wifiScript == old(dev.wifiScript)
    {
      LoopMqtt();
      GpsRead(toMeters);
    }

    /** The second half of `app_loop`: `serial_gps` then `publishData`, each behind its own gate. */
    method Output(printNow: Millis, printLater: Millis, pubNow: Millis, pubLater: Millis, p: Probe, delivered: bool)
      modifies this, dev
      requires dev.mqttUp
      ensures lastPrint == (if Due(printNow, old(lastPrint), PrintGap) then printLater else old(lastPrint))
      ensures lastPub == (if Due(pubNow, old(lastPub), PubGap) then pubLater else old(lastPub))
      ensures dev.trace == old(dev.trace) + PrintEvents(Due(printNow, old(lastPrint), PrintGap), lat, lon, sat)
        + PublishEvents(Due(pubNow, old(lastPub), PubGap), ProbeMessage(dev.wifiUp, p, lat, lon), delivered)
      ensures lat == old(lat) && lon == old(lon) && sat == old(sat) && date == old(date)
      ensures dev.wifiUp == old(dev.wifiUp) && dev.wifiScript == old(dev.wifiScript)
      ensures dev.mqttUp == old(dev.mqttUp) && dev.mqttScript == old(dev.mqttScript) && dev.fixes == old(dev.fixes)
    {
      SerialGps(printNow, printLater);
      PublishData(pubNow, pubLater, p, delivered);
    }

    /** `Serial.println(payload)` followed by the publish on the channel topic. */
    method Announce(payload: string, delivered: bool)
      modifies dev
      ensures dev.trace == old(dev.trace) + PublishEvents(true, payload, old(dev.mqttUp) && delivered)
      ensures dev.wifiUp == old(dev.wifiUp) && dev.wifiScript == old(dev.wifiScript)
      ensures dev.mqttUp == old(dev.mqttUp) && dev.mqttScript == old(dev.mqttScript) && dev.fixes == old(dev.fixes)
    {
      dev.Emit(Report([payload]));
      var _ := dev.Publish(PublishTopic(ChannelId), payload, delivered);
    }
  }
}
