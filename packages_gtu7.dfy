// MQTT_packages/GTU7_MQTT.cpp: the tracker that publishes every ten seconds whatever the GPS
// library holds, after `serial_gps` has replaced the library's "invalid" sentinels by 0.
module PackagesGtu7 {
  import opened Text
  import opened Numbers
  import opened Board
  import opened Wire
  import Clock
  import opened Gtu7

  /** `updateInterval`, in seconds. */
  const UpdateInterval: nat := 10
  const UpdateGap: nat := 1000 * UpdateInterval
  /** Decimals `serial_gps` prints the coordinates with. */
  const SerialPlaces: nat := 8
  /** `TinyGPS::GPS_INVALID_SATELLITES`. */
  const InvalidSatellites: int := 0xFF
  /** Code page 437 glyph 167, written after each coordinate on the display. */
  const DegreeGlyph: char := 167 as char

  /** `x == COORD_FAILED ? 0 : x`. */
  function Coordinate(x: real): (r: real)
    ensures r != InvalidAngle
    ensures x != InvalidAngle ==> r == x
    ensures x == InvalidAngle ==> r == 0.0
  {
    if x == InvalidAngle then 0.0 else x
  }

  /** `gps.satellites() == SAT_FAILED ? 0 : gps.satellites()`. */
  function Satellites(n: int): (r: int)
    ensures r != InvalidSatellites
    ensures n != InvalidSatellites ==> r == n
  {
    if n == InvalidSatellites then 0 else n
  }

  /** The inline payload `field1=<lat>&field2=<lon>`: no time, no device. */
  function Payload(lat: real, lon: real): string
  {
    Encode(Numbered([Fmt(lat, 2), Fmt(lon, 2)]))
  }

  /** The payload splits into exactly the two fields, latitude first. */
  lemma {:induction false} PayloadParts(lat: real, lon: real)
    ensures var parts := Split(Payload(lat, lon), '&');
      |parts| == 2 && parts[0] == FieldKey(1) + "=" + Fmt(lat, 2) && parts[1] == FieldKey(2) + "=" + Fmt(lon, 2)
  {
    FmtShape(lat, 2);
    FmtShape(lon, 2);
    TwoClean(Fmt(lat, 2), Fmt(lon, 2));
    SplitNumbered([Fmt(lat, 2), Fmt(lon, 2)]);
  }

  lemma {:induction false} TwoClean(a: string, b: string)
    requires NumeralChars(a) && NumeralChars(b)
    ensures forall i :: 0 <= i < 2 ==> '&' !in [a, b][i]
  {
    NumeralAvoids(a, '&');
    NumeralAvoids(b, '&');
  }

  /**
   * The display lines: coordinates followed by the degree glyph, then the time, with the
   * hour as the sketch prints it (`Clock.UnguardedHour`).
   */
  function Screen(lat: real, lon: real, date: Date): seq<string>
  {
    DisplayLines(lat, lon, [DegreeGlyph], Clock.UnguardedHour(date.hour), date)
  }

  /** What one due update prints, draws and sends, from the snapshot `fix`. */
  function UpdateEvents(fix: Fix, ok: bool): seq<Event>
  {
    var lat, lon := Coordinate(fix.lat), Coordinate(fix.lon);
    [Report(SerialLines(lat, lon, Satellites(fix.sat), SerialPlaces)),
     Show(Screen(lat, lon, fix.date)),
     Sent(PublishTopic(IntText(ChannelId)), Payload(lat, lon), ok)]
  }

  /** The published payload never carries the sentinel: an invalid coordinate goes out as 0.00. */
  lemma {:induction false} SentinelNeverPublished(fix: Fix, ok: bool)
    ensures var e := UpdateEvents(fix, ok)[2];
      e.payload == Payload(Coordinate(fix.lat), Coordinate(fix.lon))
      && Coordinate(fix.lat) != InvalidAngle && Coordinate(fix.lon) != InvalidAngle
    ensures fix.lat == InvalidAngle ==> Split(UpdateEvents(fix, ok)[2].payload, '&')[0] == FieldKey(1) + "=" + Fmt(0.0, 2)
  {
    PayloadParts(Coordinate(fix.lat), Coordinate(fix.lon));
  }

  /** The globals of the sketch; `ssid`, `pass` and `cred` are its account constants. */
  class Tracker {
    const dev: Device
    const ssid: string
    const pass: string
    const cred: Credentials
    var lat: real
    var lon: real
    var sat: int
    var date: Date
    /** `long lastUpdate`. */
    var lastUpdate: Millis

    constructor (dev: Device, ssid: string, pass: string, cred: Credentials)
      ensures this.dev == dev && this.ssid == ssid && this.pass == pass && this.cred == cred
      ensures lat == 0.0 && lon == 0.0 && sat == 0 && date == Date(0, 0, 0, 0, 0, 0) && lastUpdate == 0
    {
      this.dev, this.ssid, this.pass, this.cred := dev, ssid, pass, cred;
      lat, lon, sat := 0.0, 0.0, 0;
      date := Date(0, 0, 0, 0, 0, 0);
      lastUpdate := 0;
    }

    /**
     * `wifi_connect`: no early return of its own, so the two messages frame the join
     * loop even when it has nothing to do; `loop` calls it only while disassociated.
     */
    method WifiConnect()
      modifies dev
      requires dev.WifiReachable()
      ensures dev.wifiUp && dev.wifiScript == Unused(old(dev.wifiUp), old(dev.wifiScript))
      ensures dev.trace == old(dev.trace) + [Report(["Connecting...\n"])]
        + WifiTrace(old(dev.wifiUp), old(dev.wifiScript), ssid, pass, ConnectionDelay) + [Report(["Connected to Wi-Fi."])]
      ensures dev.mqttUp == old(dev.mqttUp) && dev.mqttScript == old(dev.mqttScript) && dev.fixes == old(dev.fixes)
    {
      dev.Emit(Report(["Connecting...\n"]));
      dev.ConnectWifi(ssid, pass, ConnectionDelay);
      dev.Emit(Report(["Connected to Wi-Fi."]));
    }

    /**
     * `serial_gps`: the coordinates and the satellite count lose their sentinels in place,
     * then are printed at 8 places; `satellites` is what `gps.satellites()` answers.
     */
    method SerialGps(satellites: int)
      modifies this, dev
      ensures lat == Coordinate(old(lat)) && lon == Coordinate(old(lon)) && sat == Satellites(satellites)
      ensures dev.trace == old(dev.trace) + [Report(SerialLines(Coordinate(old(lat)), Coordinate(old(lon)), Satellites(satellites), SerialPlaces))]
      ensures date == old(date) && lastUpdate == old(lastUpdate)
      ensures dev.wifiUp == old(dev.wifiUp) && dev.wifiScript == old(dev.wifiScript)
      ensures dev.mqttUp == old(dev.mqttUp) && dev.mqttScript == old(dev.mqttScript) && dev.fixes == old(dev.fixes)
    {
      var la := if lat == InvalidAngle then 0.0 else lat;
      var lo := if lon == InvalidAngle then 0.0 else lon;
      var sa := if satellites == InvalidSatellites then 0 else satellites;
      lat, lon, sat := la, lo, sa;
      dev.Emit(Report(SerialLines(la, lo, sa, SerialPlaces)));
    }

    /** One due update: sample, clean and print, draw, publish. */
    method Update(delivered: bool)
      modifies this, dev
      requires dev.fixes != []
      ensures var fix := old(dev.fixes)[0];
        lat == Coordinate(fix.lat) && lon == Coordinate(fix.lon) && sat == Satellites(fix.sat) && date == fix.date
        && dev.trace == old(dev.trace) + UpdateEvents(fix, old(dev.mqttUp) && delivered)
      ensures dev.fixes == old(dev.fixes)[1..] && lastUpdate == old(lastUpdate)
      ensures dev.wifiUp == old(dev.wifiUp) && dev.wifiScript == old(dev.wifiScript)
      ensures dev.mqttUp == old(dev.mqttUp) && dev.mqttScript == old(dev.mqttScript)
    {
      var fix := dev.Sample();
      lat, lon, date := fix.lat, fix.lon, fix.date;
      SerialGps(fix.sat);
      var shown := Show(Screen(Coordinate(fix.lat), Coordinate(fix.lon), fix.date));
      var payload := Payload(Coordinate(fix.lat), Coordinate(fix.lon));
      dev.Emit(shown);
      var _ := dev.Publish(PublishTopic(IntText(ChannelId)), payload, delivered);
    }

    /** The connection part of `loop`: join WiFi only when down, reconnect-and-subscribe only when needed, poll. */
    method Keep()
      modifies dev
      requires dev.WifiReachable() && dev.MqttReachable()
      ensures dev.wifiUp && dev.mqttUp
      ensures dev.trace == old(dev.trace) + JoinEvents(old(dev.wifiUp), old(dev.wifiScript), ssid, pass)
        + ResumeEvents(old(dev.mqttUp), old(dev.mqttScript), cred) + [Poll]
      ensures dev.wifiScript == Unused(old(dev.wifiUp), old(dev.wifiScript))
      ensures dev.mqttScript == Unused(old(dev.mqttUp), old(dev.mqttScript))
      ensures dev.fixes == old(dev.fixes)
    {
      if !dev.wifiUp {
        WifiConnect();
      } else {
        assert dev.trace == old(dev.trace) + JoinEvents(old(dev.wifiUp), old(dev.wifiScript), ssid, pass);
      }
      ghost var t1 := dev.trace;
      if !dev.mqttUp {
        dev.ConnectMqtt(cred, ConnectionDelay);
        dev.Emit(Subscribe(SubscribeTopic(IntText(ChannelId))));
      } else {
        assert dev.trace == t1 + ResumeEvents(old(dev.mqttUp), old(dev.mqttScript), cred);
      }
      dev.Emit(Poll);
    }

    /**
     * `loop`, with `now` the `millis()` of the gate and `later` the one stored after the
     * update: the update runs, and `lastUpdate` moves, only when more than 10000 ms have passed.
     */
    method Loop(now: Millis, later: Millis, delivered: bool)
      modifies this, dev
      requires dev.WifiReachable() && dev.MqttReachable()
      requires Due(now, lastUpdate, UpdateGap) ==> dev.fixes != []
      ensures dev.wifiUp && dev.mqttUp
      ensures dev.wifiScript == Unused(old(dev.wifiUp), old(dev.wifiScript))
      ensures dev.mqttScript == Unused(old(dev.mqttUp), old(dev.mqttScript))
      ensures dev.fixes == (if Due(now, old(lastUpdate), UpdateGap) then old(dev.fixes)[1..] else old(dev.fixes))
      ensures lastUpdate == (if Due(now, old(lastUpdate), UpdateGap) then later else old(lastUpdate))
      ensures var keep := old(dev.trace) + JoinEvents(old(dev.wifiUp), old(dev.wifiScript), ssid, pass)
          + ResumeEvents(old(dev.mqttUp), old(dev.mqttScript), cred) + [Poll];
        if Due(now, old(lastUpdate), UpdateGap) then
          var fix := old(dev.fixes)[0];
          lat == Coordinate(fix.lat) && lon == Coordinate(fix.lon) && sat == Satellites(fix.sat) && date == fix.date
          && dev.trace == keep + UpdateEvents(fix, delivered)
        else
          lat == old(lat) && lon == old(lon) && sat == old(sat) && date == old(date) && dev.trace == keep
    {
      Keep();
      if Due(now, lastUpdate, UpdateGap) {
        Update(delivered);
        lastUpdate := later;
      }
    }
  }
}
