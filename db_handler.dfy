// Cyber_Layer/DB_Handler/mqtt_to_postgres.py: the subscriber that turns each
// `field1=...&...&field7=...` message into one `network_data` row. The pairs are read
// with `parse_qsl`, fields 1 to 5 with `float()`, field 6 as an ISO date or else as a
// Unix time, field 7 as it is.
module DbHandler {
  import opened Base
  import opened Text
  import opened Numbers
  import opened Wire
  import opened UrlEncoded

  /** The `datetime` a timestamp text becomes: through `fromisoformat` or through `utcfromtimestamp`. */
  datatype Stamp = IsoStamp(text: string) | UnixStamp(seconds: real)

  /** The `result` dictionary of `parse_payload`; `None` is an absent value. */
  datatype Row = Row(rssi: Option<real>, down: Option<real>, up: Option<real>, lat: Option<real>, lon: Option<real>,
                     ts: Option<Stamp>, deviceId: Option<string>)

  /** The `ValueError` that `float()` raises, named by the field whose text it could not read. */
  datatype Raised = ValueError(key: string)

  /** One entry of the `result` dictionary as Python holds it. */
  datatype Cell = Number(x: real) | Moment(stamp: Stamp) | Chars(s: string) | Null

  /** What `on_message` does with one message. */
  datatype Outcome =
    | Inserted(deviceId: Option<string>, rssi: Option<real>, down: Option<real>, up: Option<real>,
               lat: Option<real>, lon: Option<real>, ts: Stamp)
    | Warned
    | Logged(error: Raised)

  /** `dict(parse_qsl(payload))`. */
  function Pairs(payload: string): map<string, string>
  {
    ToDict(ParseQsl(payload))
  }

  /** `pairs.get(key)`. */
  function Get(pairs: map<string, string>, key: string): Option<string>
  {
    if key in pairs then Some(pairs[key]) else None
  }

  /** `float(pairs["fieldN"]) if "fieldN" in pairs else None`. */
  function Column(pairs: map<string, string>, n: nat): Result<Option<real>, Raised>
  {
    var key := FieldKey(n);
    if key !in pairs then Ok(None)
    else match ParseDecimal(pairs[key])
      case None => Err(ValueError(key))
      case Some(x) => Ok(Some(x))
  }

  /**
   * The `ts` fallback on field 6: `fromisoformat` of the text with each 'Z' replaced by
   * "+00:00" (`iso` says whether it accepts), else `utcfromtimestamp(float(text))`, else None.
   */
  function Timestamp(pairs: map<string, string>, iso: string -> bool): Option<Stamp>
  {
    if FieldKey(6) !in pairs then None
    else
      var raw := pairs[FieldKey(6)];
      var text := Substitute(raw, 'Z', "+00:00");
      if iso(text) then Some(IsoStamp(text))
      else match ParseDecimal(raw)
        case None => None
        case Some(x) => if UnixInRange(x) then Some(UnixStamp(x)) else None
  }

  /**
   * The seconds `utcfromtimestamp` turns into a `datetime` rather than raising: the result,
   * rounded half-even to the microsecond, must fall in the years 1 to 9999, that is from
   * 0001-01-01T00:00:00 (-62135596800) up to, not including, 10000-01-01T00:00:00 (253402300800).
   */
  predicate UnixInRange(x: real)
  {
    FirstUnix - 0.0000005 <= x < EndUnix - 0.0000005
  }

  const FirstUnix: real := -62135596800.0
  const EndUnix: real := 253402300800.0

  /** `parse_payload`: the pairs of the message, read into a row. */
  function ParsePayload(payload: string, iso: string -> bool): Result<Row, Raised>
  {
    ParsePairs(Pairs(payload), iso)
  }

  /** The dictionary literal of `parse_payload` is built field by field, so the first unreadable field raises. */
  function ParsePairs(pairs: map<string, string>, iso: string -> bool): Result<Row, Raised>
  {
    Build(Column(pairs, 1), Column(pairs, 2), Column(pairs, 3), Column(pairs, 4), Column(pairs, 5),
          Timestamp(pairs, iso), Get(pairs, FieldKey(7)))
  }

  /** The row from its five numeric columns in order, or the error of the first that raised. */
  function Build(c1: Result<Option<real>, Raised>, c2: Result<Option<real>, Raised>, c3: Result<Option<real>, Raised>,
                 c4: Result<Option<real>, Raised>, c5: Result<Option<real>, Raised>,
                 ts: Option<Stamp>, deviceId: Option<string>): Result<Row, Raised>
  {
    if c1.Err? then Err(c1.error)
    else if c2.Err? then Err(c2.error)
    else if c3.Err? then Err(c3.error)
    else if c4.Err? then Err(c4.error)
    else if c5.Err? then Err(c5.error)
    else Ok(Row(c1.value, c2.value, c3.value, c4.value, c5.value, ts, deviceId))
  }

  /** The numeric column fed by `fieldN`, for n from 1 to 5. */
  function Reading(r: Row, n: nat): Option<real>
    requires 1 <= n <= 5
  {
    if n == 1 then r.rssi else if n == 2 then r.down else if n == 3 then r.up else if n == 4 then r.lat else r.lon
  }

  /** `result` as the dictionary Python builds. */
  function Fields(r: Row): map<string, Cell>
  {
    map["rssi" := Num(r.rssi), "down" := Num(r.down), "up" := Num(r.up), "lat" := Num(r.lat), "lon" := Num(r.lon),
        "ts" := (if r.ts.Some? then Moment(r.ts.value) else Null),
        "device_id" := (if r.deviceId.Some? then Chars(r.deviceId.value) else Null)]
  }

  function Num(x: Option<real>): Cell
  {
    if x.Some? then Number(x.value) else Null
  }

  /**
   * `on_message`: parse, then `insert_row` when the dictionary is truthy, with `now` as
   * the timestamp (`datetime.utcnow()`) when `ts` is None; an exception is logged.
   */
  function OnMessage(payload: string, iso: string -> bool, now: Stamp): Outcome
  {
    match ParsePayload(payload, iso)
    case Err(e) => Logged(e)
    case Ok(r) =>
      if |Fields(r)| > 0 then Inserted(r.deviceId, r.rssi, r.down, r.up, r.lat, r.lon, if r.ts.Some? then r.ts.value else now)
      else Warned
  }

  // ---------------------------------------------------------------- properties

  /** The dictionary always holds exactly the seven column names, whatever the payload. */
  lemma {:induction false} FieldsKeys(r: Row)
    ensures Fields(r).Keys == {"rssi", "down", "up", "lat", "lon", "ts", "device_id"}
    ensures |Fields(r)| == 7
  {
    var ks := {"rssi", "down", "up", "lat", "lon", "ts", "device_id"};
    assert "rssi" != "down" && "rssi" != "up" && "rssi" != "lat" && "rssi" != "lon" && "rssi" != "ts" && "rssi" != "device_id";
    assert |ks| == 7;
  }

  /** So the `if parsed` test never fails: every message is inserted or logged, never warned about. */
  lemma {:induction false} NeverWarned(payload: string, iso: string -> bool, now: Stamp)
    ensures OnMessage(payload, iso, now) != Warned
    ensures OnMessage(payload, iso, now).Logged? <==> ParsePayload(payload, iso).Err?
  {
    match ParsePayload(payload, iso)
    case Err(_) =>
    case Ok(r) => FieldsKeys(r);
  }

  /** An inserted row carries the parsed columns, and the receive time exactly when `ts` is None. */
  lemma {:induction false} InsertedRow(payload: string, iso: string -> bool, now: Stamp)
    requires ParsePayload(payload, iso).Ok?
    ensures var r := ParsePayload(payload, iso).value; var o := OnMessage(payload, iso, now);
      o.Inserted? && o.deviceId == r.deviceId && o.rssi == r.rssi && o.down == r.down && o.up == r.up
      && o.lat == r.lat && o.lon == r.lon && (r.ts.None? ==> o.ts == now) && (r.ts.Some? ==> o.ts == r.ts.value)
  {
    NeverWarned(payload, iso, now);
  }

  /** A field the server can read: absent, or text `float()` accepts. */
  predicate Readable(pairs: map<string, string>, n: nat)
  {
    FieldKey(n) in pairs ==> ParseDecimal(pairs[FieldKey(n)]).Some?
  }

  /**
   * The pairs parse exactly when fields 1 to 5 are readable; each column is then the
   * `float()` of its field, None when the field is absent.
   */
  lemma {:induction false} ParsePairsColumns(pairs: map<string, string>, iso: string -> bool)
    ensures ParsePairs(pairs, iso).Ok? <==> forall n :: 1 <= n <= 5 ==> Readable(pairs, n)
    ensures ParsePairs(pairs, iso).Ok? ==> forall n :: 1 <= n <= 5 ==>
      Reading(ParsePairs(pairs, iso).value, n) == (if FieldKey(n) in pairs then ParseDecimal(pairs[FieldKey(n)]) else None)
  {
    forall n | 1 <= n <= 5
      ensures (Readable(pairs, n) <==> Column(pairs, n).Ok?)
      ensures Column(pairs, n).Ok? ==>
        Column(pairs, n).value == (if FieldKey(n) in pairs then ParseDecimal(pairs[FieldKey(n)]) else None)
    {
    }
    ParsePairsByColumn(pairs, iso);
  }

  /** The row is built from the five columns exactly when each of them is read. */
  lemma {:induction false} ParsePairsByColumn(pairs: map<string, string>, iso: string -> bool)
    ensures ParsePairs(pairs, iso).Ok? <==> forall n :: 1 <= n <= 5 ==> Column(pairs, n).Ok?
    ensures ParsePairs(pairs, iso).Ok? ==> forall n :: 1 <= n <= 5 ==> Reading(ParsePairs(pairs, iso).value, n) == Column(pairs, n).value
  {
    var c1, c2, c3, c4, c5 := Column(pairs, 1), Column(pairs, 2), Column(pairs, 3), Column(pairs, 4), Column(pairs, 5);
    BuildColumns(c1, c2, c3, c4, c5, Timestamp(pairs, iso), Get(pairs, FieldKey(7)));
    var r := ParsePairs(pairs, iso);
    if forall n :: 1 <= n <= 5 ==> Column(pairs, n).Ok? {
      assert c1.Ok? && c2.Ok? && c3.Ok? && c4.Ok? && c5.Ok?;
    }
    if r.Ok? {
      forall n | 1 <= n <= 5
        ensures Column(pairs, n).Ok? && Reading(r.value, n) == Column(pairs, n).value
      {
        var row := r.value;
        if n == 1 {
          assert Column(pairs, n) == c1 && Reading(row, n) == row.rssi;
        } else if n == 2 {
          assert Column(pairs, n) == c2 && Reading(row, n) == row.down;
        } else if n == 3 {
          assert Column(pairs, n) == c3 && Reading(row, n) == row.up;
        } else if n == 4 {
          assert Column(pairs, n) == c4 && Reading(row, n) == row.lat;
        } else {
          assert Column(pairs, n) == c5 && Reading(row, n) == row.lon;
        }
      }
    }
  }

  lemma {:induction false} BuildColumns(c1: Result<Option<real>, Raised>, c2: Result<Option<real>, Raised>, c3: Result<Option<real>, Raised>,
                     c4: Result<Option<real>, Raised>, c5: Result<Option<real>, Raised>,
                     ts: Option<Stamp>, deviceId: Option<string>)
    ensures var r := Build(c1, c2, c3, c4, c5, ts, deviceId);
      (r.Ok? <==> c1.Ok? && c2.Ok? && c3.Ok? && c4.Ok? && c5.Ok?)
      && (r.Ok? ==> r.value == Row(c1.value, c2.value, c3.value, c4.value, c5.value, ts, deviceId))
  {
  }

  /** Otherwise the first unreadable field is the one that raises. */
  lemma {:induction false} ParsePairsRaises(pairs: map<string, string>, iso: string -> bool, n: nat)
    requires 1 <= n <= 5 && !Readable(pairs, n) && forall m :: 1 <= m < n ==> Readable(pairs, m)
    ensures ParsePairs(pairs, iso) == Err(ValueError(FieldKey(n)))
  {
    assert forall m :: 1 <= m <= 5 ==> (Readable(pairs, m) <==> Column(pairs, m).Ok?);
    if n == 1 {
    } else if n == 2 {
      assert Readable(pairs, 1);
    } else if n == 3 {
      assert Readable(pairs, 1) && Readable(pairs, 2);
    } else if n == 4 {
      assert Readable(pairs, 1) && Readable(pairs, 2) && Readable(pairs, 3);
    } else {
      assert Readable(pairs, 1) && Readable(pairs, 2) && Readable(pairs, 3) && Readable(pairs, 4);
    }
  }

  /**
   * `device_id` is the decoded field 7 text, not converted; `ts` follows the ISO-then-Unix
   * fallback, is None when the number is outside the years `utcfromtimestamp` can hold, and never raises.
   */
  lemma {:induction false} ParsePairsStamp(pairs: map<string, string>, iso: string -> bool)
    requires ParsePairs(pairs, iso).Ok?
    ensures var r := ParsePairs(pairs, iso).value;
      r.deviceId == (if FieldKey(7) in pairs then Some(pairs[FieldKey(7)]) else None)
      && (FieldKey(6) !in pairs ==> r.ts == None)
      && (FieldKey(6) in pairs && iso(Substitute(pairs[FieldKey(6)], 'Z', "+00:00")) ==>
            r.ts == Some(IsoStamp(Substitute(pairs[FieldKey(6)], 'Z', "+00:00"))))
      && (FieldKey(6) in pairs && !iso(Substitute(pairs[FieldKey(6)], 'Z', "+00:00")) ==>
            r.ts == (if ParseDecimal(pairs[FieldKey(6)]).Some? && UnixInRange(ParseDecimal(pairs[FieldKey(6)]).value)
                     then Some(UnixStamp(ParseDecimal(pairs[FieldKey(6)]).value)) else None))
  {
  }

  /** The device of a parsed row is `pairs.get("field7")`. */
  lemma {:induction false} ParsePairsDevice(pairs: map<string, string>, iso: string -> bool)
    requires ParsePairs(pairs, iso).Ok?
    ensures ParsePairs(pairs, iso).value.deviceId == Get(pairs, FieldKey(7))
  {
    BuildColumns(Column(pairs, 1), Column(pairs, 2), Column(pairs, 3), Column(pairs, 4), Column(pairs, 5),
                 Timestamp(pairs, iso), Get(pairs, FieldKey(7)));
  }

  /** A payload without `fieldN` pairs at all (an empty message, say) still parses, to a row of Nones. */
  lemma {:induction false} EmptyPayload(iso: string -> bool)
    ensures ParsePayload("", iso) == Ok(Row(None, None, None, None, None, None, None))
  {
    assert Pairs("") == map[];
  }
}
