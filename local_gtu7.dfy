// LocalConnections/GTU7_MQTT.cpp: the tracker that keeps WiFi and the MQTT session up on
// every pass of `loop`, and once a second decodes what the GPS sent, reads the position
// (waiting while it has no signal), prints, draws the display and publishes latitude,
// longitude and time.
module LocalGtu7 {
  import opened Text
  import opened Board
  import opened Wire
  import Clock
  import opened Gtu7

  /** `updateInterval`, in seconds. */
  const UpdateInterval: nat := 1
  const UpdateGap: nat := 1000 * UpdateInterval

  /** `gps_read` leaves its do-while once the latitude is not `NO_SIGNAL`. */
  predicate HasSignal(f: Fix)
  {
    f.lat != InvalidAngle
  }

  /** What one pass of the `gps_read` do-while prints and waits when the position has no signal. */
  const NoSignalPass: seq<Event> := [Report(["GPS has no signal\n"]), Pause(ConnectionDelay)]

  /**
   * One pass of the `gps_read` do-while over the decoded GPS state `fix`: what it prints
   * and waits, and whether it goes round again. Nothing inside the loop decodes more
   * input, so every pass reads the same `fix`.
   */
  function ReadPass(fix: Fix): (seq<Event>, bool)
  {
    if HasSignal(fix) then ([], false) else (NoSignalPass, true)
  }

  /** The first `n` passes of the do-while: the trace they leave and whether the loop is still running. */
  function Passes(fix: Fix, n: nat): (seq<Event>, bool)
  {
    if n == 0 then ([], true)
    else
      var before := Passes(fix, n - 1);
      if !before.1 then before
      else var pass := ReadPass(fix); (before.0 + pass.0, pass.1)
  }

  /**
   * A decoded state without signal never lets `gps_read` return: after any number of
   * passes the loop is still running, having printed and waited on each.
   */
  lemma {:induction false} NoSignalHangs(fix: Fix, n: nat)
    requires !HasSignal(fix)
    ensures Passes(fix, n) == (Repeat(NoSignalPass, n), true)
  {
    if n > 0 {
      NoSignalHangs(fix, n - 1);
    }
  }

  /** With a signal, the do-while leaves after its first pass, having printed nothing. */
  lemma {:induction false} SignalReturns(fix: Fix, n: nat)
    requires HasSignal(fix) && n >= 1
    ensures Passes(fix, n) == ([], false)
  {
    if n > 1 {
      SignalReturns(fix, n - 1);
    } else {
      assert Passes(fix, 0).0 + ReadPass(fix).0 == [];
    }
  }

  /**
   * What one due update shows and sends once the position is read and converted, with
   * the hour as the sketch prints it (`Clock.UnguardedHour`).
   */
  function UpdateEvents(lat: real, lon: real, sat: int, date: Date, epoch: int, ok: bool): seq<Event>
  {
    [Report(SerialLines(lat, lon, sat, 5)),
     Show(DisplayLines(lat, lon, " m", Clock.UnguardedHour(date.hour), date)),
     Sent(PublishTopic(IntText(ChannelId)), Prompt(lat, lon, epoch - Clock.UtcOffset), ok)]
  }

  /** The globals of the sketch; `ssid`, `pass` and `cred` are its account constants. */
  class Tracker {
    const dev: Device
    const ssid: string
    const pass: string
    const cred: Credentials
    var lat: real
    var lon: real
    var sat: int
    var date: Date
    /** `long lastUpdate`. */
    var lastUpdate: Millis

    constructor (dev: Device, ssid: string, pass: string, cred: Credentials)
      ensures this.dev == dev && this.ssid == ssid && this.pass == pass && this.cred == cred
      ensures lat == 0.0 && lon == 0.0 && sat == 0 && date == Date(0, 0, 0, 0, 0, 0) && lastUpdate == 0
    {
      this.dev, this.ssid, this.pass, this.cred := dev, ssid, pass, cred;
      lat, lon, sat := 0.0, 0.0, 0;
      date := Date(0, 0, 0, 0, 0, 0);
      lastUpdate := 0;
    }

    /** `wifi_connect`: return at once when associated, otherwise join and report. */
    method WifiConnect()
      modifies dev
      requires dev.WifiReachable()
      ensures dev.wifiUp && dev.wifiScript == Unused(old(dev.wifiUp), old(dev.wifiScript))
      ensures dev.trace == old(dev.trace) + JoinEvents(old(dev.wifiUp), old(dev.wifiScript), ssid, pass)
      ensures dev.mqttUp == old(dev.mqttUp) && dev.mqttScript == old(dev.mqttScript) && dev.fixes == old(dev.fixes)
    {
      if dev.wifiUp {
        assert dev.trace == old(dev.trace) + [];
        return;
      }
      dev.Emit(Report(["Connecting...\n"]));
      dev.ConnectWifi(ssid, pass, ConnectionDelay);
      dev.Emit(Report(["Connected to Wi-Fi."]));
    }

    /** `mqttConnect`: retry `connect(clientID, mqttUserName, mqttPass)` every 3 s until connected. */
    method MqttConnect()
      modifies dev
      requires dev.MqttReachable()
      ensures dev.mqttUp && dev.mqttScript == Unused(old(dev.mqttUp), old(dev.mqttScript))
      ensures dev.trace == old(dev.trace) + MqttTrace(old(dev.mqttUp), old(dev.mqttScript), cred, ConnectionDelay)
      ensures dev.wifiUp == old(dev.wifiUp) && dev.wifiScript == old(dev.wifiScript) && dev.fixes == old(dev.fixes)
    {
      dev.ConnectMqtt(cred, ConnectionDelay);
    }

    /** `mqttSubscribe`: subscribe to `channels/<id>/subscribe`. */
    method MqttSubscribe(channel: int)
      modifies dev
      ensures dev.trace == old(dev.trace) + [Subscribe(SubscribeTopic(IntText(channel)))]
      ensures dev.wifiUp == old(dev.wifiUp) && dev.wifiScript == old(dev.wifiScript)
      ensures dev.mqttUp == old(dev.mqttUp) && dev.mqttScript == old(dev.mqttScript) && dev.fixes == old(dev.fixes)
    {
      dev.Emit(Subscribe(SubscribeTopic(IntText(channel))));
    }

    /** `mqttPublish`: publish on `channels/<id>/publish`; the result is dropped. */
    method MqttPublish(channel: int, message: string, delivered: bool)
      modifies dev
      ensures dev.trace == old(dev.trace) + [Sent(PublishTopic(IntText(channel)), message, old(dev.mqttUp) && delivered)]
      ensures dev.wifiUp == old(dev.wifiUp) && dev.wifiScript == old(dev.wifiScript)
      ensures dev.mqttUp == old(dev.mqttUp) && dev.mqttScript == old(dev.mqttScript) && dev.fixes == old(dev.fixes)
    {
      var _ := dev.Publish(PublishTopic(IntText(channel)), message, delivered);
    }

    /**
     * `gps_read` as written: satellites, position and date are read from the state `fix`
     * that `loop` decoded, and `get_meters` converts the position. Its do-while decodes
     * nothing, so it returns only when `fix` has a signal (`SignalReturns`); without one
     * it prints and waits forever (`NoSignalHangs`).
     */
    method GpsRead(fix: Fix, toMeters: (real, real) -> (real, real))
      modifies this
      requires HasSignal(fix)
      ensures sat == fix.sat && date == fix.date && (lat, lon) == toMeters(fix.lat, fix.lon)
      ensures lastUpdate == old(lastUpdate)
    {
      sat, lat, lon, date := fix.sat, fix.lat, fix.lon, fix.date;
      var m := toMeters(lat, lon);
      lat, lon := m.0, m.1;
    }

    /**
     * `gps_read` as evidently intended, decoding afresh on each pass: snapshots are taken,
     * with a 3 s pause after each one without signal, until the latitude is not
     * `NO_SIGNAL`; then `get_meters` converts that position once.
     */
    method GpsReadFresh(toMeters: (real, real) -> (real, real))
      modifies this, dev
      requires exists i :: 0 <= i < |dev.fixes| && HasSignal(dev.fixes[i])
      ensures var k := FirstAccepted(old(dev.fixes), HasSignal); var fix := old(dev.fixes)[k];
        HasSignal(fix) && sat == fix.sat && date == fix.date && (lat, lon) == toMeters(fix.lat, fix.lon)
        && dev.fixes == old(dev.fixes)[k + 1..] && dev.trace == old(dev.trace) + Repeat([Pause(ConnectionDelay)], k)
      ensures lastUpdate == old(lastUpdate)
      ensures dev.wifiUp == old(dev.wifiUp) && dev.wifiScript == old(dev.wifiScript)
      ensures dev.mqttUp == old(dev.mqttUp) && dev.mqttScript == old(dev.mqttScript)
    {
      var fix := dev.ReadFix(HasSignal, ConnectionDelay);
      sat, lat, lon, date := fix.sat, fix.lat, fix.lon, fix.date;
      var m := toMeters(lat, lon);
      lat, lon := m.0, m.1;
    }

    /**
     * The serial print, the display and the publish of one update; `epoch` is `now()`
     * after `setTime` from the GPS date.
     */
    method Present(epoch: int, delivered: bool)
      modifies dev
      ensures dev.trace == old(dev.trace) + UpdateEvents(old(lat), old(lon), old(sat), old(date), epoch, old(dev.mqttUp) && delivered)
      ensures dev.wifiUp == old(dev.wifiUp) && dev.wifiScript == old(dev.wifiScript)
      ensures dev.mqttUp == old(dev.mqttUp) && dev.mqttScript == old(dev.mqttScript) && dev.fixes == old(dev.fixes)
    {
      var serial := Report(SerialLines(lat, lon, sat, 5));
      var shown := Show(DisplayLines(lat, lon, " m", Clock.UnguardedHour(date.hour), date));
      var prompt := Prompt(lat, lon, epoch - Clock.UtcOffset);
      dev.Emit(serial);
      dev.Emit(shown);
      MqttPublish(ChannelId, prompt, delivered);
    }

    /** The connection part of `loop`: WiFi, then reconnect-and-subscribe when needed, then one poll. */
    method Keep()
      modifies dev
      requires dev.WifiReachable() && dev.MqttReachable()
      ensures dev.wifiUp && dev.mqttUp
      ensures dev.trace == old(dev.trace) + JoinEvents(old(dev.wifiUp), old(dev.wifiScript), ssid, pass)
        + ResumeEvents(old(dev.mqttUp), old(dev.mqttScript), cred) + [Poll]
      ensures dev.wifiScript == Unused(old(dev.wifiUp), old(dev.wifiScript))
      ensures dev.mqttScript == Unused(old(dev.mqttUp), old(dev.mqttScript))
      ensures dev.fixes == old(dev.fixes)
    {
      WifiConnect();
      ghost var t1 := dev.trace;
      if !dev.mqttUp {
        MqttConnect();
        MqttSubscribe(ChannelId);
      } else {
        assert dev.trace == t1 + ResumeEvents(old(dev.mqttUp), old(dev.mqttScript), cred);
      }
      dev.Emit(Poll);
    }

    /** The update part of `loop`: decode what the GPS sent, read, print, draw, publish. */
    method Update(epoch: int, delivered: bool, toMeters: (real, real) -> (real, real))
      modifies this, dev
      requires dev.fixes != [] && HasSignal(dev.fixes[0])
      ensures var fix := old(dev.fixes)[0];
        sat == fix.sat && date == fix.date && (lat, lon) == toMeters(fix.lat, fix.lon) && dev.fixes == old(dev.fixes)[1..]
        && dev.trace == old(dev.trace) + UpdateEvents(lat, lon, sat, date, epoch, old(dev.mqttUp) && delivered)
      ensures lastUpdate == old(lastUpdate)
      ensures dev.wifiUp == old(dev.wifiUp) && dev.wifiScript == old(dev.wifiScript)
      ensures dev.mqttUp == old(dev.mqttUp) && dev.mqttScript == old(dev.mqttScript)
    {
      var fix := dev.Sample();
      GpsRead(fix, toMeters);
      Present(epoch, delivered);
    }

    /**
     * `loop`, with `now` the `millis()` of the gate and `later` the one stored after the
     * update: connections are kept on every pass; the update runs, and `lastUpdate` moves,
     * only when more than 1000 ms have passed.
     */
    method Loop(now: Millis, later: Millis, epoch: int, delivered: bool, toMeters: (real, real) -> (real, real))
      modifies this, dev
      requires dev.WifiReachable() && dev.MqttReachable()
      requires Due(now, lastUpdate, UpdateGap) ==> dev.fixes != [] && HasSignal(dev.fixes[0])
      ensures dev.wifiUp && dev.mqttUp
      ensures dev.wifiScript == Unused(old(dev.wifiUp), old(dev.wifiScript))
      ensures dev.mqttScript == Unused(old(dev.mqttUp), old(dev.mqttScript))
      ensures lastUpdate == (if Due(now, old(lastUpdate), UpdateGap) then later else old(lastUpdate))
      ensures var keep := old(dev.trace) + JoinEvents(old(dev.wifiUp), old(dev.wifiScript), ssid, pass)
          + ResumeEvents(old(dev.mqttUp), old(dev.mqttScript), cred) + [Poll];
        if Due(now, old(lastUpdate), UpdateGap) then
          var fix := old(dev.fixes)[0];
          sat == fix.sat && date == fix.date && (lat, lon) == toMeters(fix.lat, fix.lon) && dev.fixes == old(dev.fixes)[1..]
          && dev.trace == keep + UpdateEvents(lat, lon, sat, date, epoch, delivered)
        else
          lat == old(lat) && lon == old(lon) && sat == old(sat) && date == old(date) && dev.fixes == old(dev.fixes) && dev.trace == keep
    {
      Keep();
      if Due(now, lastUpdate, UpdateGap) {
        Update(epoch, delivered, toMeters);
        lastUpdate := later;
      }
    }
  }
}
