// The environment every firmware variant runs in: the millisecond clock, the WiFi
// radio, the PubSubClient MQTT session and the GPS receiver, seen from the sketch.
// Radio and broker behaviour is not modelled; it is supplied as scripted outcomes.
module Board {
  import opened Text

  // ---------------------------------------------------------------- millis()

  const Modulus: nat := 0x1_0000_0000

  /** A value of Arduino `millis()`: an `unsigned long`, 32 bits on the ESP32. */
  type Millis = n: int | 0 <= n < 0x1_0000_0000

  /**
   * `now - last` computed in `unsigned long` arithmetic. The sketches keep `last` in a
   * `long` or `unsigned long`; either way the subtraction is done modulo 2^32.
   */
  function Elapsed(now: Millis, last: Millis): (d: Millis)
    ensures now >= last ==> d == now - last
    ensures now < last ==> d == now - last + Modulus
  {
    if now >= last then now - last else now - last + Modulus
  }

  /** The gate `millis() - last > interval` every publish and print loop uses. */
  predicate Due(now: Millis, last: Millis, interval: nat)
  {
    Elapsed(now, last) > interval
  }

  /** A point in time counted from boot, read through the wrapping 32-bit clock. */
  function Reading(t: nat): Millis
  {
    t % Modulus
  }

  /** Across one wrap of the counter, the modular difference is the true elapsed time. */
  lemma {:induction false} ElapsedAcrossWrap(t0: nat, t1: nat)
    requires t0 <= t1 < t0 + Modulus
    ensures Elapsed(Reading(t1), Reading(t0)) == t1 - t0
  {
    var q0, q1 := t0 / Modulus, t1 / Modulus;
    assert t0 == q0 * Modulus + Reading(t0);
    assert t1 == q1 * Modulus + Reading(t1);
    if q1 == q0 {
      assert Reading(t1) - Reading(t0) == t1 - t0;
    } else {
      assert q1 * Modulus <= t1 < (q0 + 2) * Modulus;
      assert q1 == q0 + 1;
      assert Reading(t1) - Reading(t0) == t1 - t0 - Modulus;
    }
  }

  /** So a gate fires exactly when more than `interval` ms have really passed. */
  lemma {:induction false} DueIffLater(t0: nat, t1: nat, interval: nat)
    requires t0 <= t1 < t0 + Modulus
    ensures Due(Reading(t1), Reading(t0), interval) <==> t1 - t0 > interval
  {
    ElapsedAcrossWrap(t0, t1);
  }

  // ---------------------------------------------------------------- observable events

  /** How `mqttClient.connect` is called: with a client id only, or with a user and password. */
  datatype Credentials = ClientOnly(id: string) | Account(id: string, user: string, pass: string)

  /** An 8-bit unsigned value: how the GPS libraries hand out the month, day and time fields. */
  type Byte = n: int | 0 <= n < 256

  /** Calendar fields as the GPS library reports them. */
  datatype Date = Date(year: int, month: Byte, day: Byte, hour: Byte, minute: Byte, second: Byte)

  /** One snapshot of the GPS library state: validity, position, satellites and time. */
  datatype Fix = Fix(valid: bool, lat: real, lon: real, sat: int, date: Date)

  /** What a sketch does to the outside world, in order. */
  datatype Event =
    | WifiBegin(ssid: string, pass: string)
    | MqttConnect(cred: Credentials)
    | Pause(ms: nat)
    | Subscribe(topic: string)
    | Sent(topic: string, payload: string, ok: bool)
    | Poll
    | Report(lines: seq<string>)
    | Show(lines: seq<string>)

  /** `block` repeated `n` times. */
  function Repeat(block: seq<Event>, n: nat): seq<Event>
  {
    if n == 0 then [] else Repeat(block, n - 1) + block
  }

  /** `k` failed attempts, each followed by a pause, then the successful attempt. */
  function Retries(attempt: Event, ms: nat, k: nat): seq<Event>
  {
    Repeat([attempt, Pause(ms)], k) + [attempt]
  }

  /** Number of occurrences of `e` in `t`. */
  function Count(t: seq<Event>, e: Event): nat
  {
    if t == [] then 0 else Count(t[..|t| - 1], e) + (if t[|t| - 1] == e then 1 else 0)
  }

  lemma {:induction false} CountAppend(a: seq<Event>, b: seq<Event>, e: Event)
    ensures Count(a + b, e) == Count(a, e) + Count(b, e)
    decreases |b|
  {
    if b == [] {
      assert a + b == a;
    } else {
      assert (a + b)[..|a + b| - 1] == a + b[..|b| - 1];
      CountAppend(a, b[..|b| - 1], e);
    }
  }

  lemma {:induction false} CountRepeat(attempt: Event, ms: nat, k: nat)
    requires attempt != Pause(ms)
    ensures Count(Repeat([attempt, Pause(ms)], k), attempt) == k
    ensures Count(Repeat([attempt, Pause(ms)], k), Pause(ms)) == k
  {
    if k > 0 {
      CountRepeat(attempt, ms, k - 1);
      CountAppend(Repeat([attempt, Pause(ms)], k - 1), [attempt, Pause(ms)], attempt);
      CountAppend(Repeat([attempt, Pause(ms)], k - 1), [attempt, Pause(ms)], Pause(ms));
      CountAppend([attempt], [Pause(ms)], attempt);
      CountAppend([attempt], [Pause(ms)], Pause(ms));
      assert [attempt] + [Pause(ms)] == [attempt, Pause(ms)];
      assert [attempt][..0] == [] && [Pause(ms)][..0] == [];
    }
  }

  /** A retry loop that needed `k` failures makes k + 1 attempts and pauses exactly k times. */
  lemma {:induction false} RetriesCount(attempt: Event, ms: nat, k: nat)
    requires attempt != Pause(ms)
    ensures Count(Retries(attempt, ms, k), attempt) == k + 1
    ensures Count(Retries(attempt, ms, k), Pause(ms)) == k
    ensures Retries(attempt, ms, k)[|Retries(attempt, ms, k)| - 1] == attempt
  {
    CountRepeat(attempt, ms, k);
    CountAppend(Repeat([attempt, Pause(ms)], k), [attempt], attempt);
    CountAppend(Repeat([attempt, Pause(ms)], k), [attempt], Pause(ms));
    assert [attempt][..0] == [];
  }

  /** Index of the first `true` in a script of outcomes. */
  function FirstSuccess(s: seq<bool>): (k: nat)
    requires true in s
    ensures k < |s| && s[k] && forall i :: 0 <= i < k ==> !s[i]
  {
    if s[0] then 0 else FirstSuccess(s[1..]) + 1
  }

  /** Past `k` failures, a script holding a success still holds one. */
  lemma {:induction false} SuccessAhead(s: seq<bool>, k: nat)
    requires true in s && k <= |s| && forall i :: 0 <= i < k ==> !s[i]
    ensures true in s[k..]
  {
    var j := FirstSuccess(s);
    assert s[k..][j - k] == s[j];
  }

  /** Index of the first GPS snapshot that `accept` takes. */
  function FirstAccepted(s: seq<Fix>, accept: Fix -> bool): (k: nat)
    requires exists i :: 0 <= i < |s| && accept(s[i])
    ensures k < |s| && accept(s[k]) && forall i :: 0 <= i < k ==> !accept(s[i])
  {
    if accept(s[0]) then 0 else FirstAccepted(s[1..], accept) + 1
  }

  /** The events of a `connect` retry loop, empty when the session is already up. */
  function MqttTrace(up: bool, script: seq<bool>, cred: Credentials, retryMs: nat): seq<Event>
    requires up || true in script
  {
    if up then [] else Retries(MqttConnect(cred), retryMs, FirstSuccess(script))
  }

  /** The events of a `WiFi.begin` retry loop, empty when the radio is already associated. */
  function WifiTrace(up: bool, script: seq<bool>, ssid: string, pass: string, retryMs: nat): seq<Event>
    requires up || true in script
  {
    if up then [] else Repeat([WifiBegin(ssid, pass), Pause(retryMs)], FirstSuccess(script) + 1)
  }

  /** The outcomes a retry loop leaves unused: all of them when it does not run. */
  function Unused(up: bool, script: seq<bool>): seq<bool>
    requires up || true in script
  {
    if up then script else script[FirstSuccess(script) + 1..]
  }

  // ---------------------------------------------------------------- the board

  /**
   * The radio, the MQTT session and the GPS receiver. The scripts hold what the outside
   * world will answer: `wifiScript[i]` is `WiFi.status() == WL_CONNECTED` after the i-th
   * `WiFi.begin`, `mqttScript[i]` the result of the i-th `connect`, `fixes[i]` the i-th
   * snapshot of the GPS library. `trace` is everything the board has done so far.
   */
  class Device {
    var wifiUp: bool
    var wifiScript: seq<bool>
    var mqttUp: bool
    var mqttScript: seq<bool>
    var fixes: seq<Fix>
    var trace: seq<Event>

    constructor (wifiScript: seq<bool>, mqttScript: seq<bool>, fixes: seq<Fix>)
      ensures !wifiUp && !mqttUp && trace == []
      ensures this.wifiScript == wifiScript && this.mqttScript == mqttScript && this.fixes == fixes
    {
      wifiUp, mqttUp, trace := false, false, [];
      this.wifiScript, this.mqttScript, this.fixes := wifiScript, mqttScript, fixes;
    }

    /** The script still holds a success for a connection loop that has to run. */
    predicate MqttReachable()
      reads this
    {
      mqttUp || true in mqttScript
    }

    predicate WifiReachable()
      reads this
    {
      wifiUp || true in wifiScript
    }

    /**
     * `while (!mqttClient.connected()) { if (!connect(cred)) delay(retryMs); }`.
     * Termination stands for the assumption that the broker eventually accepts.
     */
    method ConnectMqtt(cred: Credentials, retryMs: nat)
      modifies this
      requires MqttReachable()
      ensures mqttUp
      ensures mqttScript == Unused(old(mqttUp), old(mqttScript))
      ensures trace == old(trace) + MqttTrace(old(mqttUp), old(mqttScript), cred, retryMs)
      ensures wifiUp == old(wifiUp) && wifiScript == old(wifiScript) && fixes == old(fixes)
    {
      if mqttUp {
        assert trace == old(trace) + [];
        return;
      }
      Reconnect(cred, retryMs);
    }

    /** The connection loop entered without a session: failures until the first success. */
    method Reconnect(cred: Credentials, retryMs: nat)
      modifies this
      requires !mqttUp && true in mqttScript
      ensures mqttUp
      ensures var k := FirstSuccess(old(mqttScript));
        mqttScript == old(mqttScript)[k + 1..] && trace == old(trace) + Retries(MqttConnect(cred), retryMs, k)
      ensures wifiUp == old(wifiUp) && wifiScript == old(wifiScript) && fixes == old(fixes)
    {
      ghost var s0, t0 := mqttScript, trace;
      ghost var k: nat := 0;
      while !mqttUp
        invariant k <= |s0| && forall i :: 0 <= i < k ==> !s0[i]
        invariant !mqttUp ==> mqttScript == s0[k..] && trace == t0 + Repeat([MqttConnect(cred), Pause(retryMs)], k)
        invariant mqttUp ==> k < |s0| && s0[k] && mqttScript == s0[k + 1..]
        invariant mqttUp ==> trace == t0 + Repeat([MqttConnect(cred), Pause(retryMs)], k) + [MqttConnect(cred)]
        invariant wifiUp == old(wifiUp) && wifiScript == old(wifiScript) && fixes == old(fixes)
        decreases |mqttScript|
      {
        SuccessAhead(s0, k);
        var accepted := TryConnect(cred, retryMs);
        if !accepted {
          k := k + 1;
        }
      }
      assert FirstSuccess(s0) == k;
    }

    /** One pass of the connection loop: `if (connect(cred)) ... else delay(retryMs);`. */
    method TryConnect(cred: Credentials, retryMs: nat) returns (accepted: bool)
      modifies this
      requires mqttScript != []
      ensures accepted == old(mqttScript)[0] && mqttUp == accepted && mqttScript == old(mqttScript)[1..]
      ensures trace == old(trace) + (if accepted then [MqttConnect(cred)] else [MqttConnect(cred), Pause(retryMs)])
      ensures wifiUp == old(wifiUp) && wifiScript == old(wifiScript) && fixes == old(fixes)
    {
      accepted := mqttScript[0];
      mqttScript := mqttScript[1..];
      mqttUp := accepted;
      trace := trace + [MqttConnect(cred)];
      if !accepted {
        trace := trace + [Pause(retryMs)];
      }
    }

    /** `while (WiFi.status() != WL_CONNECTED) { WiFi.begin(ssid, pass); delay(retryMs); }`. */
    method ConnectWifi(ssid: string, pass: string, retryMs: nat)
      modifies this
      requires WifiReachable()
      ensures wifiUp
      ensures wifiScript == Unused(old(wifiUp), old(wifiScript))
      ensures trace == old(trace) + WifiTrace(old(wifiUp), old(wifiScript), ssid, pass, retryMs)
      ensures mqttUp == old(mqttUp) && mqttScript == old(mqttScript) && fixes == old(fixes)
    {
      if wifiUp {
        assert trace == old(trace) + [];
        return;
      }
      Rejoin(ssid, pass, retryMs);
    }

    /** The WiFi loop entered while disassociated: one begin and pause per status check that fails. */
    method Rejoin(ssid: string, pass: string, retryMs: nat)
      modifies this
      requires !wifiUp && true in wifiScript
      ensures wifiUp
      ensures var k := FirstSuccess(old(wifiScript));
        wifiScript == old(wifiScript)[k + 1..] && trace == old(trace) + Repeat([WifiBegin(ssid, pass), Pause(retryMs)], k + 1)
      ensures mqttUp == old(mqttUp) && mqttScript == old(mqttScript) && fixes == old(fixes)
    {
      ghost var s0, t0 := wifiScript, trace;
      ghost var k: nat := 0;
      while !wifiUp
        invariant k <= |s0|
        invariant !wifiUp ==> forall i :: 0 <= i < k ==> !s0[i]
        invariant wifiUp ==> 0 < k && s0[k - 1] && forall i :: 0 <= i < k - 1 ==> !s0[i]
        invariant wifiScript == s0[k..]
        invariant trace == t0 + Repeat([WifiBegin(ssid, pass), Pause(retryMs)], k)
        invariant mqttUp == old(mqttUp) && mqttScript == old(mqttScript) && fixes == old(fixes)
        decreases |wifiScript|
      {
        SuccessAhead(s0, k);
        BeginWifi(ssid, pass, retryMs);
        k := k + 1;
      }
      assert FirstSuccess(s0) == k - 1;
    }

    /** One pass of the WiFi loop: `WiFi.begin(ssid, pass); delay(retryMs);`, then the status is read. */
    method BeginWifi(ssid: string, pass: string, retryMs: nat)
      modifies this
      requires wifiScript != []
      ensures wifiUp == old(wifiScript)[0] && wifiScript == old(wifiScript)[1..]
      ensures trace == old(trace) + [WifiBegin(ssid, pass), Pause(retryMs)]
      ensures mqttUp == old(mqttUp) && mqttScript == old(mqttScript) && fixes == old(fixes)
    {
      trace := trace + [WifiBegin(ssid, pass), Pause(retryMs)];
      wifiUp := wifiScript[0];
      wifiScript := wifiScript[1..];
    }

    /** `mqttClient.publish(topic, payload)`: false without a session, else the transport's answer. */
    method Publish(topic: string, payload: string, delivered: bool) returns (ok: bool)
      modifies this
      ensures ok == (old(mqttUp) && delivered)
      ensures trace == old(trace) + [Sent(topic, payload, ok)]
      ensures wifiUp == old(wifiUp) && wifiScript == old(wifiScript) && mqttUp == old(mqttUp)
      ensures mqttScript == old(mqttScript) && fixes == old(fixes)
    {
      ok := mqttUp && delivered;
      trace := trace + [Sent(topic, payload, ok)];
    }

    /** Appends one event that changes nothing else (subscribe, `mqttClient.loop()`, serial and display output, a delay). */
    method Emit(e: Event)
      modifies this
      ensures trace == old(trace) + [e]
      ensures wifiUp == old(wifiUp) && wifiScript == old(wifiScript) && mqttUp == old(mqttUp)
      ensures mqttScript == old(mqttScript) && fixes == old(fixes)
    {
      trace := trace + [e];
    }

    /** One GPS snapshot taken without any validity check. */
    method Sample() returns (fix: Fix)
      modifies this
      requires fixes != []
      ensures fix == old(fixes)[0] && fixes == old(fixes)[1..] && trace == old(trace)
      ensures wifiUp == old(wifiUp) && wifiScript == old(wifiScript) && mqttUp == old(mqttUp)
      ensures mqttScript == old(mqttScript)
    {
      fix := fixes[0];
      fixes := fixes[1..];
    }

    /**
     * The read-until-valid loop: take GPS snapshots, pausing `retryMs` after each one
     * `accept` rejects, until one is accepted.
     */
    method ReadFix(accept: Fix -> bool, retryMs: nat) returns (fix: Fix)
      modifies this
      requires exists i :: 0 <= i < |fixes| && accept(fixes[i])
      ensures var k := FirstAccepted(old(fixes), accept);
        fix == old(fixes)[k] && fixes == old(fixes)[k + 1..] && trace == old(trace) + Repeat([Pause(retryMs)], k)
      ensures accept(fix)
      ensures wifiUp == old(wifiUp) && wifiScript == old(wifiScript) && mqttUp == old(mqttUp)
      ensures mqttScript == old(mqttScript)
    {
      ghost var k: nat := 0;
      fix := fixes[0];
      fixes := fixes[1..];
      while !accept(fix)
        invariant k < |old(fixes)| && fix == old(fixes)[k] && fixes == old(fixes)[k + 1..]
        invariant forall i :: 0 <= i < k ==> !accept(old(fixes)[i])
        invariant trace == old(trace) + Repeat([Pause(retryMs)], k)
        invariant wifiUp == old(wifiUp) && wifiScript == old(wifiScript) && mqttUp == old(mqttUp)
        invariant mqttScript == old(mqttScript)
        decreases |fixes|
      {
        var j := FirstAccepted(old(fixes), accept);
        assert j > k;
        assert fixes[j - k - 1] == old(fixes)[j];
        trace := trace + [Pause(retryMs)];
        k := k + 1;
        fix := fixes[0];
        fixes := fixes[1..];
      }
      assert FirstAccepted(old(fixes), accept) == k;
    }
  }
}
