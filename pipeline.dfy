// The components end to end: what the servers make of the messages the firmware sends.
// The Publisher sketch and the DB handler agree on seven numbered fields; the ESP32 node
// sends six, with its id where the handler expects a timestamp; the Temoral node joins
// named pairs with '&', which the Mosquitto subscriber does not split on.
module Pipeline {
  import opened Base
  import opened Text
  import opened Numbers
  import opened Wire
  import opened UrlEncoded
  import DbHandler
  import Broker
  import PublisherMain
  import Esp32Client
  import TemoralClient

  // ---------------------------------------------------------------- numbered fields into parse_qsl

  /** A value that `parse_qsl` hands back exactly as the firmware wrote it. */
  predicate Carried(v: string)
  {
    Safe(v) && v != []
  }

  lemma {:induction false} NumeralCarried(s: string)
    requires NumeralChars(s) && s != []
    ensures Carried(s)
  {
    NumeralAvoids(s, '&');
    NumeralAvoids(s, '%');
    NumeralAvoids(s, '+');
  }

  /** Every `String(x, places)` the firmware sends is carried intact. */
  lemma {:induction false} FmtCarried(x: real, places: nat)
    requires places >= 1
    ensures Carried(Fmt(x, places))
  {
    FmtShape(x, places);
    NumeralCarried(Fmt(x, places));
  }

  lemma {:induction false} IntTextCarried(i: int)
    ensures Carried(IntText(i))
  {
    IntTextNumeral(i);
    NumeralCarried(IntText(i));
  }

  lemma {:induction false} NumberedPlain(vs: seq<string>)
    requires forall i :: 0 <= i < |vs| ==> Carried(vs[i])
    ensures forall i :: 0 <= i < |vs| ==> Plain(Numbered(vs)[i])
  {
    forall i | 0 <= i < |vs|
      ensures Plain(Numbered(vs)[i])
    {
      FieldKeyWord(i + 1);
    }
  }

  /** `parse_qsl` gives the numbered fields back as they were, in order. */
  lemma {:induction false} NumberedPairs(vs: seq<string>)
    requires forall i :: 0 <= i < |vs| ==> Carried(vs[i])
    ensures DbHandler.Pairs(Encode(Numbered(vs))) == ToDict(AsPairs(Numbered(vs)))
  {
    NumberedPlain(vs);
    ParseEncode(Numbered(vs));
  }

  /** The names of the numbered pairs are `field1` to `fieldN`. */
  lemma {:induction false} NumberedNames(vs: seq<string>)
    ensures var ps := AsPairs(Numbered(vs));
      (set i | 0 <= i < |ps| :: ps[i].name) == set n | 1 <= n <= |vs| :: FieldKey(n)
  {
    var ps := AsPairs(Numbered(vs));
    forall i | 0 <= i < |ps|
      ensures ps[i].name == FieldKey(i + 1)
    {
    }
    NamesByPosition(ps, FieldKey);
  }

  /** Names given by position `f(1)`, `f(2)`, ... form the image of `1..|ps|` under `f`. */
  lemma {:induction false} NamesByPosition(ps: seq<Pair>, f: nat -> string)
    requires forall i :: 0 <= i < |ps| ==> ps[i].name == f(i + 1)
    ensures (set i | 0 <= i < |ps| :: ps[i].name) == set n | 1 <= n <= |ps| :: f(n)
  {
    var names := set i | 0 <= i < |ps| :: ps[i].name;
    var keys := set n | 1 <= n <= |ps| :: f(n);
    forall k | k in names
      ensures k in keys
    {
      var i :| 0 <= i < |ps| && ps[i].name == k;
      assert f(i + 1) in keys;
    }
    forall k | k in keys
      ensures k in names
    {
      var n :| 1 <= n <= |ps| && f(n) == k;
      assert ps[n - 1].name in names;
    }
  }

  /** The dictionary of a numbered message holds exactly `field1` to `fieldN`. */
  lemma {:induction false} NumberedKeys(vs: seq<string>)
    requires forall i :: 0 <= i < |vs| ==> Carried(vs[i])
    ensures DbHandler.Pairs(Encode(Numbered(vs))).Keys == set n | 1 <= n <= |vs| :: FieldKey(n)
  {
    NumberedPairs(vs);
    ToDictKeys(AsPairs(Numbered(vs)));
    NumberedNames(vs);
  }

  /** ... and `fieldN` maps to the N-th value, which is what `pairs.get` answers for it. */
  lemma {:induction false} NumberedDict(vs: seq<string>, n: nat)
    requires forall j :: 0 <= j < |vs| ==> Carried(vs[j])
    requires 1 <= n <= |vs|
    ensures var pairs := DbHandler.Pairs(Encode(Numbered(vs)));
      FieldKey(n) in pairs && pairs[FieldKey(n)] == vs[n - 1] && DbHandler.Get(pairs, FieldKey(n)) == Some(vs[n - 1])
  {
    var fs, i := Numbered(vs), n - 1;
    NumberedPlain(vs);
    forall j | i < j < |fs|
      ensures fs[j].key != fs[i].key
    {
      FieldKeyInjective(j + 1, i + 1);
    }
    DictOfEncode(fs, i);
  }

  /** A number beyond the last value names no field. */
  lemma {:induction false} NumberedAbsent(vs: seq<string>, n: nat)
    requires forall i :: 0 <= i < |vs| ==> Carried(vs[i])
    requires n > |vs|
    ensures FieldKey(n) !in DbHandler.Pairs(Encode(Numbered(vs)))
  {
    NumberedKeys(vs);
    forall m | 1 <= m <= |vs|
      ensures FieldKey(m) != FieldKey(n)
    {
      FieldKeyInjective(m, n);
    }
  }

  /** The first five values read by `float()` as the five numbers `xs`. */
  predicate Reads(vs: seq<string>, xs: seq<real>)
  {
    |vs| >= 5 && |xs| == 5
    && ParseDecimal(vs[0]) == Some(xs[0]) && ParseDecimal(vs[1]) == Some(xs[1]) && ParseDecimal(vs[2]) == Some(xs[2])
    && ParseDecimal(vs[3]) == Some(xs[3]) && ParseDecimal(vs[4]) == Some(xs[4])
  }

  /** Fields 1 to 5 holding text `float()` reads: the row holds those readings, in column order. */
  lemma {:induction false} ReadingsRow(pairs: map<string, string>, vs: seq<string>, xs: seq<real>, iso: string -> bool)
    requires Reads(vs, xs)
    requires forall n :: 1 <= n <= 5 ==> FieldKey(n) in pairs && pairs[FieldKey(n)] == vs[n - 1]
    ensures var r := DbHandler.ParsePairs(pairs, iso);
      r.Ok? && r.value.rssi == Some(xs[0]) && r.value.down == Some(xs[1]) && r.value.up == Some(xs[2])
      && r.value.lat == Some(xs[3]) && r.value.lon == Some(xs[4])
  {
    var c1, c2, c3 := DbHandler.Column(pairs, 1), DbHandler.Column(pairs, 2), DbHandler.Column(pairs, 3);
    var c4, c5 := DbHandler.Column(pairs, 4), DbHandler.Column(pairs, 5);
    assert c1 == Ok(Some(xs[0])) && c2 == Ok(Some(xs[1])) && c3 == Ok(Some(xs[2]));
    assert c4 == Ok(Some(xs[3])) && c5 == Ok(Some(xs[4]));
  }

  /** `field1` to `fieldK` map to the first k values. */
  lemma {:induction false} NumberedFirst(vs: seq<string>, k: nat)
    requires forall i :: 0 <= i < |vs| ==> Carried(vs[i])
    requires k <= |vs|
    ensures var pairs := DbHandler.Pairs(Encode(Numbered(vs)));
      forall n :: 1 <= n <= k ==> FieldKey(n) in pairs && pairs[FieldKey(n)] == vs[n - 1]
  {
    forall n | 1 <= n <= k
      ensures FieldKey(n) in DbHandler.Pairs(Encode(Numbered(vs))) && DbHandler.Pairs(Encode(Numbered(vs)))[FieldKey(n)] == vs[n - 1]
    {
      NumberedDict(vs, n);
    }
  }

  /**
   * Five or more carried values whose first five `float()` reads as `xs`: `parse_payload`
   * succeeds and the five columns are those numbers, in order.
   */
  lemma {:induction false} NumberedReadings(vs: seq<string>, xs: seq<real>, iso: string -> bool)
    requires forall i :: 0 <= i < |vs| ==> Carried(vs[i])
    requires Reads(vs, xs)
    ensures var r := DbHandler.ParsePayload(Encode(Numbered(vs)), iso);
      r.Ok? && r.value.rssi == Some(xs[0]) && r.value.down == Some(xs[1]) && r.value.up == Some(xs[2])
      && r.value.lat == Some(xs[3]) && r.value.lon == Some(xs[4])
  {
    NumberedFirst(vs, 5);
    ReadingsRow(DbHandler.Pairs(Encode(Numbered(vs))), vs, xs, iso);
  }

  /**
   * Field 6 reaches the timestamp fallback as sent, and `device_id` is the seventh value,
   * or None when there is none.
   */
  lemma {:induction false} NumberedTail(vs: seq<string>, iso: string -> bool)
    requires |vs| >= 6 && forall i :: 0 <= i < |vs| ==> Carried(vs[i])
    requires DbHandler.ParsePayload(Encode(Numbered(vs)), iso).Ok?
    ensures var pairs := DbHandler.Pairs(Encode(Numbered(vs)));
      FieldKey(6) in pairs && pairs[FieldKey(6)] == vs[5]
      && DbHandler.ParsePayload(Encode(Numbered(vs)), iso).value.deviceId == (if |vs| >= 7 then Some(vs[6]) else None)
  {
    NumberedDict(vs, 6);
    NumberedGet(vs, 7);
    DbHandler.ParsePairsDevice(DbHandler.Pairs(Encode(Numbered(vs))), iso);
  }

  /** `pairs.get("fieldN")` is the N-th value, None past the last one. */
  lemma {:induction false} NumberedGet(vs: seq<string>, n: nat)
    requires forall i :: 0 <= i < |vs| ==> Carried(vs[i])
    requires n >= 1
    ensures DbHandler.Get(DbHandler.Pairs(Encode(Numbered(vs))), FieldKey(n)) == (if n <= |vs| then Some(vs[n - 1]) else None)
  {
    if n <= |vs| {
      NumberedDict(vs, n);
    } else {
      NumberedAbsent(vs, n);
    }
  }

  /**
   * Seven carried values: five numbers `float()` reads as `xs`, a number that is not an
   * ISO date, and an id. The row holds the five readings, the number as a Unix time and
   * the id as it was sent.
   */
  lemma {:induction false} SevenFields(vs: seq<string>, xs: seq<real>, seconds: real, iso: string -> bool)
    requires |vs| == 7 && forall i :: 0 <= i < 7 ==> Carried(vs[i])
    requires Reads(vs, xs)
    requires 'Z' !in vs[5] && !iso(vs[5]) && ParseDecimal(vs[5]) == Some(seconds) && DbHandler.UnixInRange(seconds)
    ensures DbHandler.ParsePayload(Encode(Numbered(vs)), iso)
      == Ok(DbHandler.Row(Some(xs[0]), Some(xs[1]), Some(xs[2]), Some(xs[3]), Some(xs[4]),
                          Some(DbHandler.UnixStamp(seconds)), Some(vs[6])))
  {
    NumberedReadings(vs, xs, iso);
    NumberedTail(vs, iso);
    DbHandler.ParsePairsStamp(DbHandler.Pairs(Encode(Numbered(vs))), iso);
  }

  /**
   * Six carried values: five numbers `float()` reads as `xs`, then an id that is neither an
   * ISO date nor a number. The id fills the timestamp slot and is lost: no `ts`, no `device_id`.
   */
  lemma {:induction false} SixFields(vs: seq<string>, xs: seq<real>, iso: string -> bool)
    requires |vs| == 6 && forall i :: 0 <= i < 6 ==> Carried(vs[i])
    requires Reads(vs, xs)
    requires !iso(Substitute(vs[5], 'Z', "+00:00")) && ParseDecimal(vs[5]) == None
    ensures DbHandler.ParsePayload(Encode(Numbered(vs)), iso)
      == Ok(DbHandler.Row(Some(xs[0]), Some(xs[1]), Some(xs[2]), Some(xs[3]), Some(xs[4]), None, None))
  {
    NumberedReadings(vs, xs, iso);
    NumberedTail(vs, iso);
    DbHandler.ParsePairsStamp(DbHandler.Pairs(Encode(Numbered(vs))), iso);
  }

  // ---------------------------------------------------------------- Publisher sketch into the DB handler

  /**
   * The Publisher message read by `parse_payload`: each reading comes back rounded to the
   * two decimals it was printed with (the position too), the date as a Unix time, the id
   * as sent.
   */
  lemma {:induction false} PublisherToDatabase(rssi: real, down: real, up: real, lat: real, lon: real, date: int, deviceId: string,
                            iso: string -> bool)
    requires Carried(deviceId) && !iso(IntText(date)) && DbHandler.UnixInRange(date as real)
    ensures DbHandler.ParsePayload(PublisherMain.Message(rssi, down, up, lat, lon, date, deviceId), iso)
      == Ok(DbHandler.Row(Some(Rounded(rssi, 2)), Some(Rounded(down, 2)), Some(Rounded(up, 2)),
                          Some(Rounded(lat, 2)), Some(Rounded(lon, 2)),
                          Some(DbHandler.UnixStamp(date as real)), Some(deviceId)))
  {
    var xs := [Rounded(rssi, 2), Rounded(down, 2), Rounded(up, 2), Rounded(lat, 2), Rounded(lon, 2)];
    PublisherValues(rssi, down, up, lat, lon, date, deviceId);
    SevenFields(PublisherMain.Values(rssi, down, up, lat, lon, date, deviceId), xs, date as real, iso);
  }

  lemma {:induction false} CarriedAll(vs: seq<string>)
    requires |vs| >= 6 && Carried(vs[0]) && Carried(vs[1]) && Carried(vs[2]) && Carried(vs[3]) && Carried(vs[4]) && Carried(vs[5])
    requires |vs| == 6 || (|vs| == 7 && Carried(vs[6]))
    ensures forall i :: 0 <= i < |vs| ==> Carried(vs[i])
  {
  }

  /** The seven Publisher values are carried, the five readings read back rounded, the date as its integer. */
  lemma {:induction false} PublisherValues(rssi: real, down: real, up: real, lat: real, lon: real, date: int, deviceId: string)
    requires Carried(deviceId)
    ensures var vs := PublisherMain.Values(rssi, down, up, lat, lon, date, deviceId);
      var xs := [Rounded(rssi, 2), Rounded(down, 2), Rounded(up, 2), Rounded(lat, 2), Rounded(lon, 2)];
      |vs| == 7 && (forall i :: 0 <= i < 7 ==> Carried(vs[i]))
      && Reads(vs, xs)
      && vs[5] == IntText(date) && 'Z' !in vs[5] && ParseDecimal(vs[5]) == Some(date as real) && vs[6] == deviceId
  {
    var vs := PublisherMain.Values(rssi, down, up, lat, lon, date, deviceId);
    FmtCarried(rssi, 2);
    FmtCarried(down, 2);
    FmtCarried(up, 2);
    FmtCarried(lat, 2);
    FmtCarried(lon, 2);
    IntTextCarried(date);
    CarriedAll(vs);
    ParseFmt(rssi, 2);
    ParseFmt(down, 2);
    ParseFmt(up, 2);
    ParseFmt(lat, 2);
    ParseFmt(lon, 2);
    IntTextNumeral(date);
    NumeralAvoids(IntText(date), 'Z');
    ParseDecimalIntText(date);
  }

  /** So `on_message` inserts exactly that row, with the device's own date as its time. */
  lemma {:induction false} PublisherInserted(rssi: real, down: real, up: real, lat: real, lon: real, date: int, deviceId: string,
                          iso: string -> bool, now: DbHandler.Stamp)
    requires Carried(deviceId) && !iso(IntText(date)) && DbHandler.UnixInRange(date as real)
    ensures DbHandler.OnMessage(PublisherMain.Message(rssi, down, up, lat, lon, date, deviceId), iso, now)
      == DbHandler.Inserted(Some(deviceId), Some(Rounded(rssi, 2)), Some(Rounded(down, 2)), Some(Rounded(up, 2)),
                            Some(Rounded(lat, 2)), Some(Rounded(lon, 2)), DbHandler.UnixStamp(date as real))
  {
    PublisherToDatabase(rssi, down, up, lat, lon, date, deviceId, iso);
    DbHandler.InsertedRow(PublisherMain.Message(rssi, down, up, lat, lon, date, deviceId), iso, now);
  }

  // ---------------------------------------------------------------- ESP32 node into the DB handler

  /**
   * The six-field ESP32 message read by `parse_payload`: the readings come back rounded
   * (the position to five decimals), but the id lands in field 6, the timestamp slot, so
   * an id that is neither an ISO date nor a number gives no timestamp and no device id.
   */
  lemma {:induction false} Esp32ToDatabase(r: Esp32Client.Readings, deviceId: string, iso: string -> bool)
    requires Carried(deviceId) && !iso(Substitute(deviceId, 'Z', "+00:00")) && ParseDecimal(deviceId) == None
    ensures DbHandler.ParsePayload(Esp32Client.Message(r, deviceId), iso)
      == Ok(DbHandler.Row(Some(Rounded(r.rssi, 2)), Some(Rounded(r.down, 2)), Some(Rounded(r.up, 2)),
                          Some(Rounded(r.lat, 5)), Some(Rounded(r.lon, 5)), None, None))
  {
    var xs := [Rounded(r.rssi, 2), Rounded(r.down, 2), Rounded(r.up, 2), Rounded(r.lat, 5), Rounded(r.lon, 5)];
    Esp32Values(r, deviceId);
    SixFields(Esp32Client.Values(r, deviceId), xs, iso);
  }

  /** The six ESP32 values are carried and the five readings read back rounded; the id comes last. */
  lemma {:induction false} Esp32Values(r: Esp32Client.Readings, deviceId: string)
    requires Carried(deviceId)
    ensures var vs := Esp32Client.Values(r, deviceId);
      var xs := [Rounded(r.rssi, 2), Rounded(r.down, 2), Rounded(r.up, 2), Rounded(r.lat, 5), Rounded(r.lon, 5)];
      |vs| == 6 && (forall i :: 0 <= i < 6 ==> Carried(vs[i]))
      && Reads(vs, xs) && vs[5] == deviceId
  {
    var vs := Esp32Client.Values(r, deviceId);
    FmtCarried(r.rssi, 2);
    FmtCarried(r.down, 2);
    FmtCarried(r.up, 2);
    FmtCarried(r.lat, 5);
    FmtCarried(r.lon, 5);
    CarriedAll(vs);
    ParseFmt(r.rssi, 2);
    ParseFmt(r.down, 2);
    ParseFmt(r.up, 2);
    ParseFmt(r.lat, 5);
    ParseFmt(r.lon, 5);
  }

  /** "ESP32_01" is carried and holds no 'Z'. */
  lemma {:induction false} Esp32IdCarried()
    ensures Carried(Esp32Client.DeviceId)
    ensures Substitute(Esp32Client.DeviceId, 'Z', "+00:00") == Esp32Client.DeviceId
  {
    assert 'Z' !in Esp32Client.DeviceId;
  }

  /** "ESP32_01" is not a number. */
  lemma {:induction false} Esp32IdNotNumber()
    ensures ParseDecimal(Esp32Client.DeviceId) == None
  {
    ParseDecimalRejects(Esp32Client.DeviceId);
  }

  /**
   * With its configured id "ESP32_01" every ESP32 row is inserted with the receive time
   * and a None device id.
   */
  lemma {:induction false} Esp32RowsAnonymous(r: Esp32Client.Readings, iso: string -> bool, now: DbHandler.Stamp)
    requires !iso(Esp32Client.DeviceId)
    ensures DbHandler.OnMessage(Esp32Client.Message(r, Esp32Client.DeviceId), iso, now)
      == DbHandler.Inserted(None, Some(Rounded(r.rssi, 2)), Some(Rounded(r.down, 2)), Some(Rounded(r.up, 2)),
                            Some(Rounded(r.lat, 5)), Some(Rounded(r.lon, 5)), now)
  {
    Esp32IdCarried();
    Esp32IdNotNumber();
    Esp32ToDatabase(r, Esp32Client.DeviceId, iso);
    DbHandler.InsertedRow(Esp32Client.Message(r, Esp32Client.DeviceId), iso, now);
  }

  // ---------------------------------------------------------------- Temoral node into the broker

  /** A visible ASCII character other than ',' and ';': the broker neither strips nor splits at it. */
  predicate Token(c: char)
  {
    '!' <= c <= '~' && c != ',' && c != ';'
  }

  predicate Tokens(s: string)
  {
    forall i :: 0 <= i < |s| ==> Token(s[i])
  }

  lemma {:induction false} JoinTokens(parts: seq<string>, sep: char)
    requires Token(sep) && forall i :: 0 <= i < |parts| ==> Tokens(parts[i])
    ensures Tokens(Join(parts, sep))
  {
    if |parts| > 1 {
      JoinTokens(parts[1..], sep);
      assert Tokens(parts[0]);
    }
  }

  lemma {:induction false} NumeralTokens(s: string)
    requires NumeralChars(s)
    ensures Tokens(s)
  {
  }

  /** The six named pairs of a Temoral message, their texts, and the text after the first. */
  function TemoralPairs(vs: seq<string>): seq<string>
    requires |vs| == 6
  {
    PairTexts(Named(TemoralClient.Keys6, vs))
  }

  /** Values of blank-free, separator-free text give a message of the same kind. */
  lemma {:induction false} MessageTokens(vs: seq<string>)
    requires |vs| == 6 && forall i :: 0 <= i < 6 ==> Tokens(vs[i])
    ensures Tokens(Encode(Named(TemoralClient.Keys6, vs)))
  {
    var pts := TemoralPairs(vs);
    forall i | 0 <= i < 6
      ensures Tokens(pts[i])
    {
      assert Word(TemoralClient.Keys6[i]) by {
        assert Word("rssi") && Word("down") && Word("up") && Word("lat") && Word("lon") && Word("device");
      }
      assert pts[i] == TemoralClient.Keys6[i] + "=" + vs[i];
    }
    JoinTokens(pts, '&');
  }

  /** The message starts with "rssi=", and what follows is the first value, '&', and the other five pairs. */
  lemma {:induction false} RssiFirst(vs: seq<string>)
    requires |vs| == 6
    ensures var t := Encode(Named(TemoralClient.Keys6, vs));
      t == "rssi=" + (vs[0] + "&" + Join(TemoralPairs(vs)[1..], '&'))
  {
    var pts := TemoralPairs(vs);
    assert pts[0] == "rssi" + "=" + vs[0];
    assert Join(pts, '&') == pts[0] + ['&'] + Join(pts[1..], '&');
  }

  /** After "rssi=" the text still splits at '&' into the first value and the other five pairs. */
  lemma {:induction false} RssiValueParts(vs: seq<string>)
    requires |vs| == 6 && forall i :: 0 <= i < 6 ==> '&' !in vs[i]
    ensures var t := Encode(Named(TemoralClient.Keys6, vs)); var parts := Split(t[5..], '&');
      |parts| == 6 && parts[0] == vs[0] && forall i :: 1 <= i < 6 ==> parts[i] == TemoralClient.Keys6[i] + "=" + vs[i]
  {
    var ks := TemoralClient.Keys6;
    var t := Encode(Named(ks, vs));
    var pts := TemoralPairs(vs);
    var rest := Join(pts[1..], '&');
    RssiFirst(vs);
    SplitNamed(ks, vs);
    assert Split(t, '&') == [pts[0]] + Split(rest, '&') by {
      assert '&' !in pts[0] by {
        assert pts[0] == "rssi" + "=" + vs[0];
      }
      assert t == pts[0] + ['&'] + rest;
      SplitAfter(pts[0], rest, '&');
    }
    assert t[5..] == vs[0] + ['&'] + rest;
    SplitAfter(vs[0], rest, '&');
    var parts := Split(t, '&');
    assert Split(t[5..], '&') == [vs[0]] + parts[1..];
  }

  /** Token text holds none of the broker's separators and has no blank at either end. */
  lemma {:induction false} TokensUnsplit(s: string)
    requires s != [] && Tokens(s)
    ensures ',' !in s && ';' !in s && ' ' !in s
    ensures !IsSpace(s[0]) && !IsSpace(s[|s| - 1])
  {
  }

  /** The first `c` of a text is the one right after a prefix without `c`. */
  lemma {:induction false} FindAfter(a: string, c: char, b: string)
    requires c !in a
    ensures Find(a + [c] + b, c) == Some(|a|)
  {
    var t := a + [c] + b;
    assert t[|a|] == c;
  }

  /** Lower-case ASCII letters only. */
  predicate Letters(s: string)
  {
    forall i :: 0 <= i < |s| ==> 'a' <= s[i] <= 'z'
  }

  /**
   * A key of lower-case letters before '=': the broker reads that key back, and the
   * value as the stripped text after the '='.
   */
  lemma {:induction false} LettersKey(k: string, v: string)
    requires k != [] && Letters(k)
    ensures '=' in k + "=" + v && Broker.KeyText(k + "=" + v) == k
    ensures Broker.ValueText(k + "=" + v) == Strip(v)
  {
    var t := k + ['='] + v;
    assert t == k + "=" + v;
    FindAfter(k, '=', v);
    assert t[..|k|] == k && t[|k| + 1..] == v;
    StripUnchanged(k);
  }

  lemma {:induction false} RssiLetters()
    ensures Letters("rssi")
  {
  }

  lemma {:induction false} RssiPrefix(v: string)
    ensures "rssi=" + v == "rssi" + "=" + v
  {
  }

  /** Letters hold none of the broker's separators and no blank. */
  lemma {:induction false} LettersUnsplit(k: string)
    requires Letters(k)
    ensures ',' !in k && ';' !in k && ' ' !in k
    ensures k != [] ==> !IsSpace(k[0])
  {
  }

  /**
   * A `key=value` text with a lower-case key and a value free of blanks, ',' and ';' but
   * holding '&': one key, its value kept as text.
   */
  lemma {:induction false} SingleTextKey(k: string, v: string, json: string -> Broker.Json)
    requires k != [] && Letters(k) && v != [] && Tokens(v) && '&' in v
    requires Broker.NotContainer(json, k + "=" + v)
    ensures Broker.ParseText(Strip(k + "=" + v), json) == map[k := Broker.Chars(v)]
  {
    var t := k + "=" + v;
    TokensUnsplit(v);
    LettersUnsplit(k);
    assert t[0] == k[0] && t[|t| - 1] == v[|v| - 1];
    StripUnchanged(t);
    StripUnchanged(v);
    LettersKey(k, v);
    Broker.SingleKey(t, json);
    Broker.CastKeepsText(v, '&');
  }

  /** Two topic levels are kept whole as the device key. */
  lemma {:induction false} TwoLevels(a: string, b: string)
    requires '/' !in a && '/' !in b
    ensures Broker.TopicKey(a + "/" + b) == a + "/" + b
  {
    var t := a + ['/'] + b;
    assert t == a + "/" + b;
    SplitNone(b, '/');
    SplitAfter(a, b, '/');
    var parts := Split(t, '/');
    assert parts == [a, b];
    assert parts[..2] == [a, b];
    assert Join([a, b], '/') == t by {
      assert [a, b][1..] == [b];
    }
  }

  /** None of the six device fields is "rssi". */
  lemma {:induction false} NoDeviceField(payload: map<string, Broker.Value>)
    requires payload.Keys == {"rssi"}
    ensures forall j :: 0 <= j < |Broker.DeviceKeys| ==> Broker.DeviceKeys[j] !in payload
  {
  }

  /** Without a device field the Temoral device is named after its topic, "esp32/data", whole. */
  lemma {:induction false} TopicNamesDevice(payload: map<string, Broker.Value>, render: Broker.Value -> string)
    requires payload.Keys == {"rssi"}
    ensures Broker.GuessDeviceKey(TemoralClient.Topic, payload, render) == TemoralClient.Topic
  {
    NoDeviceField(payload);
    Broker.GuessFirst(Broker.DeviceKeys, TemoralClient.Topic, payload, render, |Broker.DeviceKeys|);
    TopicHalves();
    TwoLevels("esp32", "data");
  }

  lemma {:induction false} TopicHalves()
    ensures TemoralClient.Topic == "esp32" + "/" + "data" && '/' !in "esp32" && '/' !in "data"
  {
  }

  /**
   * A Temoral message is "rssi=" followed by one blank-free text that holds '&' and splits
   * at '&' into the first value and the five other `key=value` pairs.
   */
  lemma {:induction false} TemoralParts(n: TemoralClient.Network, lat: real, lon: real, deviceId: string)
    requires deviceId != [] && '&' !in deviceId && Tokens(deviceId)
    ensures var t := TemoralClient.Message(n, lat, lon, deviceId);
      var vs := TemoralClient.Values(n, lat, lon, deviceId); var parts := Split(t[5..], '&');
      t == "rssi=" + t[5..] && Tokens(t[5..]) && '&' in t[5..]
      && |parts| == 6 && parts[0] == vs[0] && (forall i :: 1 <= i < 6 ==> parts[i] == TemoralClient.Keys6[i] + "=" + vs[i])
  {
    var vs := TemoralClient.Values(n, lat, lon, deviceId);
    TemoralValues(n, lat, lon, deviceId);
    var t := TemoralClient.Message(n, lat, lon, deviceId);
    RssiFirst(vs);
    RssiValueParts(vs);
    MessageTokens(vs);
    var v := t[5..];
    assert t == "rssi=" + v;
    assert Tokens(v) by {
      assert forall i :: 0 <= i < |v| ==> v[i] == t[i + 5];
    }
    assert '&' in v by {
      assert v[|vs[0]|] == '&';
    }
  }

  /**
   * A Temoral message reaches the broker's `on_message` as a single key: "rssi" maps to the
   * text of all six readings, nothing is read as a number, and since none of the device
   * fields is present the device is named after the topic "esp32/data".
   */
  lemma {:induction false} TemoralToBroker(n: TemoralClient.Network, lat: real, lon: real, deviceId: string,
                        json: string -> Broker.Json, render: Broker.Value -> string)
    requires deviceId != [] && '&' !in deviceId && Tokens(deviceId)
    requires Broker.NotContainer(json, TemoralClient.Message(n, lat, lon, deviceId))
    ensures var t := TemoralClient.Message(n, lat, lon, deviceId); var payload := Broker.ParseText(Strip(t), json);
      t == "rssi=" + t[5..]
      && payload == map["rssi" := Broker.Chars(t[5..])]
      && Broker.GuessDeviceKey(TemoralClient.Topic, payload, render) == TemoralClient.Topic
  {
    TemoralParts(n, lat, lon, deviceId);
    var t := TemoralClient.Message(n, lat, lon, deviceId);
    var v := t[5..];
    RssiPrefix(v);
    RssiLetters();
    SingleTextKey("rssi", v, json);
    TopicNamesDevice(Broker.ParseText(Strip(t), json), render);
  }

  /** `String(x, places)` is not empty and holds neither '&', blanks, ',' nor ';'. */
  lemma {:induction false} FmtClean(x: real, places: nat)
    requires places >= 1
    ensures Fmt(x, places) != [] && '&' !in Fmt(x, places) && Tokens(Fmt(x, places))
  {
    FmtShape(x, places);
    NumeralTokens(Fmt(x, places));
    NumeralAvoids(Fmt(x, places), '&');
  }

  lemma {:induction false} CleanAll(vs: seq<string>)
    requires |vs| == 6
    requires '&' !in vs[0] && Tokens(vs[0]) && '&' !in vs[1] && Tokens(vs[1]) && '&' !in vs[2] && Tokens(vs[2])
    requires '&' !in vs[3] && Tokens(vs[3]) && '&' !in vs[4] && Tokens(vs[4]) && '&' !in vs[5] && Tokens(vs[5])
    ensures forall i :: 0 <= i < 6 ==> '&' !in vs[i] && Tokens(vs[i])
  {
  }

  /** The six Temoral values are free of '&', blanks, ',' and ';', and the first is not empty. */
  lemma {:induction false} TemoralValues(n: TemoralClient.Network, lat: real, lon: real, deviceId: string)
    requires deviceId != [] && '&' !in deviceId && Tokens(deviceId)
    ensures var vs := TemoralClient.Values(n, lat, lon, deviceId);
      |vs| == 6 && vs[0] != [] && forall i :: 0 <= i < 6 ==> '&' !in vs[i] && Tokens(vs[i])
  {
    FmtClean(n.rssi, 2);
    FmtClean(n.down, 2);
    FmtClean(n.up, 2);
    FmtClean(lat, 5);
    FmtClean(lon, 5);
    CleanAll(TemoralClient.Values(n, lat, lon, deviceId));
  }
}
