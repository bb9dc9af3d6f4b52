// Publisher_Node/GTU7.h: the GT-U7 helpers of the publisher node. The serial print and the
// publish are each gated on their own `millis()` interval; `mqtt_connect` subscribes on every
// call; the display shows the UTC-6 time with the hour guarded by an else branch.
module PublisherGtu7 {
  import opened Text
  import opened Board
  import opened Wire
  import Clock
  import opened Gtu7

  /** `delayPub` and `delayPrint`, in seconds. */
  const DelayPub: nat := 10
  const DelayPrint: nat := 3
  const PubGap: nat := 1000 * DelayPub
  const PrintGap: nat := 1000 * DelayPrint

  /** `gps_read` stops at the first snapshot whose location the library reports valid. */
  predicate Located(f: Fix)
  {
    f.valid
  }

  /** What `serial_gps` prints: the position at 5 places and the satellites, or nothing when not due. */
  function PrintEvents(due: bool, lat: real, lon: real, sat: int): seq<Event>
  {
    if due then [Report(SerialLines(lat, lon, sat, 5))] else []
  }

  /** The three display lines: coordinates in metres, then the guarded UTC-6 time. */
  function Screen(lat: real, lon: real, d: Date): seq<string>
  {
    DisplayLines(lat, lon, " m", Clock.GuardedHour(d.hour), d)
  }

  /** What `mqtt_publish(channel)` sends: the prompt with the shifted epoch, or nothing when not due. */
  function PublishEvents(due: bool, channel: int, lat: real, lon: real, epoch: int, ok: bool): seq<Event>
  {
    if due then [Sent(PublishTopic(IntText(channel)), Prompt(lat, lon, epoch - Clock.UtcOffset), ok)] else []
  }

  /** `mqtt_connect`: the retry loop (empty when connected), then the subscribe in any case. */
  function ConnectEvents(up: bool, script: seq<bool>, cred: Credentials): seq<Event>
    requires up || true in script
  {
    MqttTrace(up, script, cred, ConnectionDelay) + [Subscribe(SubscribeTopic(IntText(ChannelId)))]
  }

  /** Every `mqtt_connect` subscribes exactly once, as its last step, even on a live session. */
  lemma {:induction false} AlwaysSubscribes(up: bool, script: seq<bool>, cred: Credentials)
    requires up || true in script
    ensures var t := ConnectEvents(up, script, cred); var sub := Subscribe(SubscribeTopic(IntText(ChannelId)));
      Count(t, sub) == 1 && t[|t| - 1] == sub
      && Count(t, MqttConnect(cred)) == (if up then 0 else FirstSuccess(script) + 1)
    ensures up ==> ConnectEvents(up, script, cred) == [Subscribe(SubscribeTopic(IntText(ChannelId)))]
  {
    var sub := Subscribe(SubscribeTopic(IntText(ChannelId)));
    var m := MqttTrace(up, script, cred, ConnectionDelay);
    if !up {
      var k := FirstSuccess(script);
      RetriesCount(MqttConnect(cred), ConnectionDelay, k);
      NoSubscribeInRetries(MqttConnect(cred), ConnectionDelay, k, sub);
    }
    CountAppend(m, [sub], sub);
    CountAppend(m, [sub], MqttConnect(cred));
    assert [sub][..0] == [];
  }

  /** For a GPS time the display's time line is `HH:MM:SS` with the hour reading (h + 18) mod 24. */
  lemma {:induction false} ScreenTime(lat: real, lon: real, d: Date)
    requires d.hour < 24 && d.minute < 60 && d.second < 60
    ensures var line := Screen(lat, lon, d)[2]; var t := line[6..];
      |line| == 14 && line[..6] == "Time: " && t[2] == ':' && t[5] == ':'
      && AllDigits(t[..2]) && AllDigits(t[3..5]) && AllDigits(t[6..])
      && ParseNat(t[..2]) == (d.hour + 18) % 24 && ParseNat(t[3..5]) == d.minute && ParseNat(t[6..]) == d.second
  {
    Clock.GuardedTimeShape(d.hour, d.minute, d.second);
    Clock.GuardedHourLocal(d.hour);
    Clock.PaddedTwoDigits(d.minute);
    Clock.PaddedTwoDigits(d.second);
    var t := Clock.TimeText(Clock.GuardedHour(d.hour), d.minute, d.second);
    var line := Screen(lat, lon, d)[2];
    assert line == "Time: " + t;
    assert line[6..] == t;
  }

  /** The globals of the header; `ssid`, `pass` and `cred` are its account constants. */
  class Node {
    const dev: Device
    const ssid: string
    const pass: string
    const cred: Credentials
    var lat: real
    var lon: real
    var sat: int
    var date: Date
    /** `long lastPub` and `long lastPrint`. */
    var lastPub: Millis
    var lastPrint: Millis

    constructor (dev: Device, ssid: string, pass: string, cred: Credentials)
      ensures this.dev == dev && this.ssid == ssid && this.pass == pass && this.cred == cred
      ensures lat == 0.0 && lon == 0.0 && sat == 0 && date == Date(0, 0, 0, 0, 0, 0)
      ensures lastPub == 0 && lastPrint == 0
    {
      this.dev, this.ssid, this.pass, this.cred := dev, ssid, pass, cred;
      lat, lon, sat := 0.0, 0.0, 0;
      date := Date(0, 0, 0, 0, 0, 0);
      lastPub, lastPrint := 0, 0;
    }

    /**
     * `gps_read`: snapshots are stored, with a 3 s pause after each one whose location is
     * not valid, until one is valid; then `get_meters` converts that position once.
     */
    method GpsRead(toMeters: (real, real) -> (real, real))
      modifies this, dev
      requires exists i :: 0 <= i < |dev.fixes| && Located(dev.fixes[i])
      ensures var k := FirstAccepted(old(dev.fixes), Located); var fix := old(dev.fixes)[k];
        fix.valid && sat == fix.sat && date == fix.date && (lat, lon) == toMeters(fix.lat, fix.lon)
        && dev.fixes == old(dev.fixes)[k + 1..] && dev.trace == old(dev.trace) + Repeat([Pause(ConnectionDelay)], k)
      ensures lastPub == old(lastPub) && lastPrint == old(lastPrint)
      ensures dev.wifiUp == old(dev.wifiUp) && dev.wifiScript == old(dev.wifiScript)
      ensures dev.mqttUp == old(dev.mqttUp) && dev.mqttScript == old(dev.mqttScript)
    {
      var fix := dev.ReadFix(Located, ConnectionDelay);
      sat, lat, lon, date := fix.sat, fix.lat, fix.lon, fix.date;
      var m := toMeters(lat, lon);
      lat, lon := m.0, m.1;
    }

    /**
     * `serial_gps`, with `now` the `millis()` of the gate and `later` the one stored: prints
     * only when more than 3000 ms have passed, and then moves `lastPrint`.
     */
    method SerialGps(now: Millis, later: Millis)
      modifies this, dev
      ensures lastPrint == (if Due(now, old(lastPrint), PrintGap) then later else old(lastPrint))
      ensures dev.trace == old(dev.trace) + PrintEvents(Due(now, old(lastPrint), PrintGap), old(lat), old(lon), old(sat))
      ensures lat == old(lat) && lon == old(lon) && sat == old(sat) && date == old(date) && lastPub == old(lastPub)
      ensures dev.wifiUp == old(dev.wifiUp) && dev.wifiScript == old(dev.wifiScript)
      ensures dev.mqttUp == old(dev.mqttUp) && dev.mqttScript == old(dev.mqttScript) && dev.fixes == old(dev.fixes)
    {
      if Due(now, lastPrint, PrintGap) {
        lastPrint := later;
        dev.Emit(Report(SerialLines(lat, lon, sat, 5)));
      } else {
        assert dev.trace == old(dev.trace) + [];
      }
    }

    /** `display_gps`: the three lines replace whatever the display showed. */
    method DisplayGps()
      modifies dev
      ensures dev.trace == old(dev.trace) + [Show(Screen(lat, lon, date))]
      ensures dev.wifiUp == old(dev.wifiUp) && dev.wifiScript == old(dev.wifiScript)
      ensures dev.mqttUp == old(dev.mqttUp) && dev.mqttScript == old(dev.mqttScript) && dev.fixes == old(dev.fixes)
    {
      dev.Emit(Show(Screen(lat, lon, date)));
    }

    /** `wifi_connect`: return at once when associated, otherwise join and report. */
    method WifiConnect()
      modifies dev
      requires dev.WifiReachable()
      ensures dev.wifiUp && dev.wifiScript == Unused(old(dev.wifiUp), old(dev.wifiScript))
      ensures dev.trace == old(dev.trace) + JoinEvents(old(dev.wifiUp), old(dev.wifiScript), ssid, pass)
      ensures dev.mqttUp == old(dev.mqttUp) && dev.mqttScript == old(dev.mqttScript) && dev.fixes == old(dev.fixes)
    {
      if dev.wifiUp {
        assert dev.trace == old(dev.trace) + [];
        return;
      }
      dev.Emit(Report(["Connecting...\n"]));
      dev.ConnectWifi(ssid, pass, ConnectionDelay);
      dev.Emit(Report(["Connected to Wi-Fi."]));
    }

    /** `mqtt_connect`: retry every 3 s until connected, then subscribe to the channel whatever the state was. */
    method MqttConnect()
      modifies dev
      requires dev.MqttReachable()
      ensures dev.mqttUp && dev.mqttScript == Unused(old(dev.mqttUp), old(dev.mqttScript))
      ensures dev.trace == old(dev.trace) + ConnectEvents(old(dev.mqttUp), old(dev.mqttScript), cred)
      ensures dev.wifiUp == old(dev.wifiUp) && dev.wifiScript == old(dev.wifiScript) && dev.fixes == old(dev.fixes)
    {
      dev.ConnectMqtt(cred, ConnectionDelay);
      MqttSubscribe(ChannelId);
    }

    /** `mqtt_subscribe`: subscribe to `channels/<id>/subscribe`. */
    method MqttSubscribe(channel: int)
      modifies dev
      ensures dev.trace == old(dev.trace) + [Subscribe(SubscribeTopic(IntText(channel)))]
      ensures dev.wifiUp == old(dev.wifiUp) && dev.wifiScript == old(dev.wifiScript)
      ensures dev.mqttUp == old(dev.mqttUp) && dev.mqttScript == old(dev.mqttScript) && dev.fixes == old(dev.fixes)
    {
      dev.Emit(Subscribe(SubscribeTopic(IntText(channel))));
    }

    /**
     * `mqtt_publish(channel)`, with `now` the `millis()` of the gate, `later` the one stored
     * and `epoch` what `now()` answers after `setTime` from the GPS date: only when more than
     * 10000 ms have passed, `lastPub` moves first, then the prompt goes to `channels/<id>/publish`.
     */
    method MqttPublish(channel: int, now: Millis, later: Millis, epoch: int, delivered: bool)
      modifies this, dev
      ensures lastPub == (if Due(now, old(lastPub), PubGap) then later else old(lastPub))
      ensures dev.trace == old(dev.trace)
        + PublishEvents(Due(now, old(lastPub), PubGap), channel, old(lat), old(lon), epoch, old(dev.mqttUp) && delivered)
      ensures lat == old(lat) && lon == old(lon) && sat == old(sat) && date == old(date) && lastPrint == old(lastPrint)
      ensures dev.wifiUp == old(dev.wifiUp) && dev.wifiScript == old(dev.wifiScript)
      ensures dev.mqttUp == old(dev.mqttUp) && dev.mqttScript == old(dev.mqttScript) && dev.fixes == old(dev.fixes)
    {
      if Due(now, lastPub, PubGap) {
        lastPub := later;
        var query := Prompt(lat, lon, epoch - Clock.UtcOffset);
        var _ := dev.Publish(PublishTopic(IntText(channel)), query, delivered);
      } else {
        assert dev.trace == old(dev.trace) + [];
      }
    }
  }
}
