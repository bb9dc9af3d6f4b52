// What the GT-U7 tracker sketches (LocalConnections/GTU7_MQTT.cpp, MQTT_packages/GTU7_MQTT.cpp,
// Publisher_Node/GTU7.h and Publisher_Node/main.h) have in common: the ThingSpeak channel, the
// serial and display texts, the WiFi join sequence, the reconnect-then-subscribe sequence and
// the three-field prompt.
module Gtu7 {
  import opened Base
  import opened Text
  import opened Numbers
  import opened Board
  import opened Wire
  import Clock

  /** `channelID`: the ThingSpeak channel holding latitude, longitude and time. */
  const ChannelId: nat := 3150934
  /** `TinyGPS::GPS_INVALID_F_ANGLE`, the coordinate TinyGPS reports without a fix. */
  const InvalidAngle: real := 1000.0
  /** Delay between WiFi and MQTT attempts, in milliseconds. */
  const ConnectionDelay: nat := 3000

  /** The lines `serial_gps` prints: an empty line, then latitude, longitude and satellites. */
  function SerialLines(lat: real, lon: real, sat: int, places: nat): seq<string>
    requires places >= 1
  {
    ["", "Lat: " + Fmt(lat, places), "Lon: " + Fmt(lon, places), "Satellites: " + IntText(sat)]
  }

  /**
   * The three display lines of `display_gps`: latitude and longitude at the 2 places of
   * `print(float)` followed by `unit`, then the time around the given hour text.
   */
  function DisplayLines(lat: real, lon: real, unit: string, hour: string, d: Date): seq<string>
  {
    ["Latitude: " + Fmt(lat, 2) + unit, "Longitude: " + Fmt(lon, 2) + unit, "Time: " + Clock.TimeText(hour, d.minute, d.second)]
  }

  /** The `wifi_connect` sequence: nothing when associated, else the join loop between two messages. */
  function JoinEvents(up: bool, script: seq<bool>, ssid: string, pass: string): seq<Event>
    requires up || true in script
  {
    if up then []
    else [Report(["Connecting...\n"])] + WifiTrace(false, script, ssid, pass, ConnectionDelay) + [Report(["Connected to Wi-Fi."])]
  }

  /** `if (!connected) { mqttConnect(); mqttSubscribe(channelID); }`: nothing when the session is up. */
  function ResumeEvents(up: bool, script: seq<bool>, cred: Credentials): seq<Event>
    requires up || true in script
  {
    if up then [] else MqttTrace(false, script, cred, ConnectionDelay) + [Subscribe(SubscribeTopic(IntText(ChannelId)))]
  }

  /** A subscribe goes out exactly when the session had to be re-established, and then last. */
  lemma {:induction false} SubscribeOnlyAfterReconnect(up: bool, script: seq<bool>, cred: Credentials)
    requires up || true in script
    ensures Count(ResumeEvents(up, script, cred), Subscribe(SubscribeTopic(IntText(ChannelId)))) == (if up then 0 else 1)
    ensures !up ==> var t := ResumeEvents(up, script, cred);
      t[|t| - 1] == Subscribe(SubscribeTopic(IntText(ChannelId))) && Count(t, MqttConnect(cred)) == FirstSuccess(script) + 1
  {
    if !up {
      var sub := Subscribe(SubscribeTopic(IntText(ChannelId)));
      var k := FirstSuccess(script);
      RetriesCount(MqttConnect(cred), ConnectionDelay, k);
      NoSubscribeInRetries(MqttConnect(cred), ConnectionDelay, k, sub);
      var r := Retries(MqttConnect(cred), ConnectionDelay, k);
      CountAppend(r, [sub], sub);
      CountAppend(r, [sub], MqttConnect(cred));
      assert [sub][..0] == [];
    }
  }

  /** A retry loop of connect attempts and pauses holds no other event. */
  lemma {:induction false} NoSubscribeInRetries(attempt: Event, ms: nat, k: nat, e: Event)
    requires e != attempt && e != Pause(ms)
    ensures Count(Retries(attempt, ms, k), e) == 0
  {
    NoOtherInRepeat(attempt, ms, k, e);
    CountAppend(Repeat([attempt, Pause(ms)], k), [attempt], e);
    assert [attempt][..0] == [];
  }

  lemma {:induction false} NoOtherInRepeat(attempt: Event, ms: nat, k: nat, e: Event)
    requires e != attempt && e != Pause(ms)
    ensures Count(Repeat([attempt, Pause(ms)], k), e) == 0
  {
    if k > 0 {
      NoOtherInRepeat(attempt, ms, k - 1, e);
      CountAppend(Repeat([attempt, Pause(ms)], k - 1), [attempt, Pause(ms)], e);
      assert [attempt, Pause(ms)][..1] == [attempt];
      assert [attempt][..0] == [];
      assert Count([attempt], e) == 0;
    }
  }

  /** The prompt values: latitude and longitude at 2 places, then the date. */
  function PromptValues(lat: real, lon: real, date: int): seq<string>
  {
    [Fmt(lat, 2), Fmt(lon, 2), IntText(date)]
  }

  /** `field1=<lat>&field2=<lon>&field3=<date>`, built with `+=`. */
  function Prompt(lat: real, lon: real, date: int): string
  {
    Encode(Numbered(PromptValues(lat, lon, date)))
  }

  /** The prompt splits into exactly three parts, `field1`, `field2`, `field3`, in that order. */
  lemma {:induction false} PromptParts(lat: real, lon: real, date: int)
    ensures var parts := Split(Prompt(lat, lon, date), '&');
      |parts| == 3 && parts[0] == FieldKey(1) + "=" + Fmt(lat, 2) && parts[1] == FieldKey(2) + "=" + Fmt(lon, 2)
      && parts[2] == FieldKey(3) + "=" + IntText(date)
  {
    IntTextNumeral(date);
    FmtShape(lat, 2);
    FmtShape(lon, 2);
    NumeralsClean(Fmt(lat, 2), Fmt(lon, 2), IntText(date));
    SplitNumbered(PromptValues(lat, lon, date));
  }

  lemma {:induction false} NumeralsClean(a: string, b: string, c: string)
    requires NumeralChars(a) && NumeralChars(b) && NumeralChars(c)
    ensures forall i :: 0 <= i < 3 ==> '&' !in [a, b, c][i]
  {
    NumeralAvoids(a, '&');
    NumeralAvoids(b, '&');
    NumeralAvoids(c, '&');
  }
}
