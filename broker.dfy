// Broker_Mosquitto/mqtt_to_postgres.py: the catch-all subscriber. It guesses the shape of
// each payload (JSON object, JSON array, `key=value` tokens, a CSV line, or raw text),
// names the device after a payload field or the topic, and stamps the payload with the
// receive time when it has no `ts`.
module Broker {
  import opened Base
  import opened Text
  import opened Numbers

  /** A Python value inside a decoded payload. */
  datatype Value =
    | Chars(s: string)
    | Int(i: int)
    | Float(x: real)
    | Items(vs: seq<Value>)
    /** A JSON object, `true`, `false` or `null` nested in a JSON document, kept as `json.loads` built it. */
    | Nested(id: nat)

  /** What `json.loads` makes of a text: an object, an array, a scalar, or a `JSONDecodeError`. */
  datatype Json = JsonObject(fields: map<string, Value>) | JsonArray(items: seq<Value>) | JsonScalar(v: Value) | JsonError

  /** The JSON parser does not return a dictionary or a list for this text. */
  predicate NotContainer(json: string -> Json, text: string)
  {
    !json(text).JsonObject? && !json(text).JsonArray?
  }

  // ---------------------------------------------------------------- tokens

  /** `[t for tok in tokens for t in tok.split(sep)]`. */
  function SplitEach(tokens: seq<string>, sep: char): (r: seq<string>)
    ensures |r| >= |tokens|
    ensures forall i :: 0 <= i < |r| ==> sep !in r[i]
  {
    if tokens == [] then [] else Split(tokens[0], sep) + SplitEach(tokens[1..], sep)
  }

  /** Splitting every token at `sep` and joining all the pieces with `sep` joins the tokens back. */
  lemma {:induction false} SplitEachJoin(tokens: seq<string>, sep: char)
    ensures Join(SplitEach(tokens, sep), sep) == Join(tokens, sep)
  {
    if tokens != [] {
      JoinSplit(tokens[0], sep);
      if |tokens| > 1 {
        SplitEachJoin(tokens[1..], sep);
        JoinAppend(Split(tokens[0], sep), SplitEach(tokens[1..], sep), sep);
      } else {
        assert SplitEach(tokens[1..], sep) == [];
        assert SplitEach(tokens, sep) == Split(tokens[0], sep);
        assert Join(tokens, sep) == tokens[0];
      }
    }
  }

  /**
   * So splitting each token is splitting the tokens' join: the pieces are those of
   * `sep.join(tokens).split(sep)`, in order.
   */
  lemma {:induction false} SplitEachIsSplit(tokens: seq<string>, sep: char)
    requires tokens != []
    ensures SplitEach(tokens, sep) == Split(Join(tokens, sep), sep)
  {
    SplitEachJoin(tokens, sep);
    SplitJoin(SplitEach(tokens, sep), sep);
  }

  /** The tokens after splitting at each separator in turn. */
  function Tokenize(tokens: seq<string>, seps: seq<char>): seq<string>
    decreases |seps|
  {
    if seps == [] then tokens else Tokenize(SplitEach(tokens, seps[0]), seps[1..])
  }

  /** `separators = [",", ";", " "]`. */
  const Separators: seq<char> := [',', ';', ' ']

  /** `[t for t in tokens if "=" in t]`. */
  function WithEquals(tokens: seq<string>): (r: seq<string>)
    ensures |r| <= |tokens| && forall i :: 0 <= i < |r| ==> '=' in r[i]
  {
    if tokens == [] then [] else (if '=' in tokens[0] then [tokens[0]] else []) + WithEquals(tokens[1..])
  }

  /** The filter keeps exactly the tokens holding '=', in their order. */
  lemma {:induction false} WithEqualsKeeps(tokens: seq<string>)
    ensures forall t :: t in WithEquals(tokens) <==> t in tokens && '=' in t
    ensures Subsequence(WithEquals(tokens), tokens)
  {
    if tokens != [] {
      WithEqualsKeeps(tokens[1..]);
      var rest := WithEquals(tokens[1..]);
      assert tokens == [tokens[0]] + tokens[1..];
      if '=' in tokens[0] {
        assert WithEquals(tokens) == [tokens[0]] + rest;
        assert ([tokens[0]] + rest)[1..] == rest;
      } else {
        assert WithEquals(tokens) == rest;
        SubsequenceSkip(rest, tokens);
      }
    }
  }

  /** `k.strip().lower()` for the text before the first '='. */
  function KeyText(t: string): string
    requires '=' in t
  {
    Lower(Strip(t[..Find(t, '=').value]))
  }

  /** `v.strip()` for the text after the first '='. */
  function ValueText(t: string): string
    requires '=' in t
  {
    Strip(t[Find(t, '=').value + 1..])
  }

  /** `v.replace(".", "", 1).replace("-", "", 1).isdigit()` on ASCII digits. */
  predicate LooksNumeric(v: string)
  {
    var d := RemoveFirst(RemoveFirst(v, '.'), '-');
    d != [] && AllDigits(d)
  }

  /** The numeric cast: `float(v)` with a '.', `int(v)` without; a failing cast keeps the text. */
  function Cast(v: string): Value
  {
    if !LooksNumeric(v) then Chars(v)
    else if '.' in v then
      match ParseDecimal(v)
      case None => Chars(v)
      case Some(x) => Float(x)
    else
      match ParseInteger(v)
      case None => Chars(v)
      case Some(i) => Int(i)
  }

  /** The key and the cast value one token contributes. */
  function Entry(t: string): (string, Value)
    requires '=' in t
  {
    (KeyText(t), Cast(ValueText(t)))
  }

  /** The entries of the tokens, in order. */
  function Entries(eqs: seq<string>): (r: seq<(string, Value)>)
    requires forall i :: 0 <= i < |eqs| ==> '=' in eqs[i]
    ensures |r| == |eqs|
  {
    seq(|eqs|, i requires 0 <= i < |eqs| => Entry(eqs[i]))
  }

  /** `pairs[k] = v` for each entry in order, so a later key overwrites an earlier one. */
  function Assign(entries: seq<(string, Value)>): map<string, Value>
  {
    if entries == [] then map[]
    else Assign(entries[..|entries| - 1])[entries[|entries| - 1].0 := entries[|entries| - 1].1]
  }

  /** `[float(p) if "." in p else int(p) for p in parts]`, None when a cast raises. */
  function CsvValues(parts: seq<string>): Option<seq<Value>>
  {
    if parts == [] then Some([])
    else
      var head := if '.' in parts[0] then (match ParseDecimal(parts[0]) case None => None case Some(x) => Some(Float(x)))
                  else (match ParseInteger(parts[0]) case None => None case Some(i) => Some(Int(i)));
      match head
      case None => None
      case Some(v) =>
        match CsvValues(parts[1..])
        case None => None
        case Some(vs) => Some([v] + vs)
  }

  /** Every comma-separated part is non-blank. */
  predicate CsvShaped(text: string)
  {
    ',' in text && forall p :: p in Split(text, ',') ==> Strip(p) != []
  }

  /** Steps 3 and 4: a CSV line as `{"values": [...]}`, anything else as `{"raw": text}`. */
  function Fallback(text: string): map<string, Value>
  {
    if CsvShaped(text) then
      match CsvValues(Split(text, ','))
      case Some(vs) => map["values" := Items(vs)]
      case None => map["raw" := Chars(text)]
    else map["raw" := Chars(text)]
  }

  /** `try_parse_payload` on the stripped text. */
  function ParseText(text: string, json: string -> Json): map<string, Value>
  {
    match json(text)
    case JsonObject(m) => m
    case JsonArray(vs) => map["values" := Items(vs)]
    case _ => KeyValue(WithEquals(Tokenize([text], Separators)), text)
  }

  /** Step 2: the dictionary of the tokens with '=', when there are some and it is not empty, else the fallbacks. */
  function KeyValue(eqs: seq<string>, text: string): map<string, Value>
    requires forall i :: 0 <= i < |eqs| ==> '=' in eqs[i]
  {
    var pairs := Assign(Entries(eqs));
    if eqs != [] && |pairs| > 0 then pairs else Fallback(text)
  }

  /**
   * `try_parse_payload(raw)`: the JSON attempt, then the `key=value` loop over the tokens,
   * then the CSV and raw fallbacks. `raw` is the payload already decoded to text.
   */
  method TryParsePayload(raw: string, json: string -> Json) returns (payload: map<string, Value>)
    ensures payload == ParseText(Strip(raw), json)
  {
    var text := Strip(raw);
    match json(text)
    case JsonObject(fields) =>
      payload := fields;
    case JsonArray(items) =>
      payload := map["values" := Items(items)];
    case _ =>
      payload := KeyValueStep(text);
      TokensParsed(text, json);
  }

  /** Steps 2 to 4, reached when the text is not a JSON object or array. */
  method KeyValueStep(text: string) returns (payload: map<string, Value>)
    ensures payload == KeyValue(WithEquals(Tokenize([text], Separators)), text)
  {
    var tokens := SplitTokens(text);
    var eqs := WithEquals(tokens);
    if eqs != [] {
      var pairs := Collect(Entries(eqs));
      if |pairs| > 0 {
        return pairs;
      }
    }
    payload := Fallback(text);
  }

  /** `tokens = [text]`, then one comprehension per separator. */
  method SplitTokens(text: string) returns (tokens: seq<string>)
    ensures tokens == Tokenize([text], Separators)
  {
    tokens := [text];
    var i := 0;
    while i < |Separators|
      invariant 0 <= i <= |Separators|
      invariant Tokenize(tokens, Separators[i..]) == Tokenize([text], Separators)
    {
      tokens := SplitEach(tokens, Separators[i]);
      i := i + 1;
    }
  }

  /** The `for t in eq_tokens` loop filling `pairs`. */
  method Collect(entries: seq<(string, Value)>) returns (pairs: map<string, Value>)
    ensures pairs == Assign(entries)
  {
    pairs := map[];
    var j := 0;
    while j < |entries|
      invariant 0 <= j <= |entries|
      invariant pairs == Assign(entries[..j])
    {
      assert entries[..j + 1][..j] == entries[..j];
      var (k, v) := entries[j];
      pairs := pairs[k := v];
      j := j + 1;
    }
    assert entries[..j] == entries;
  }

  // ---------------------------------------------------------------- device key and timestamp

  /** The payload fields that name a device, in the order they are tried. */
  const DeviceKeys: seq<string> := ["device_id", "device", "id", "mac", "chipid", "node"]

  /** `"/".join(parts[:2]) if len(parts) >= 2 else topic`. */
  function TopicKey(topic: string): string
  {
    var parts := Split(topic, '/');
    if |parts| >= 2 then Join(parts[..2], '/') else topic
  }

  /** The loop over `keys`: the first whose rendered value is not blank, else the topic. */
  function GuessFrom(keys: seq<string>, topic: string, payload: map<string, Value>, render: Value -> string): string
  {
    if keys == [] then TopicKey(topic)
    else if keys[0] in payload && Strip(render(payload[keys[0]])) != [] then Strip(render(payload[keys[0]]))
    else GuessFrom(keys[1..], topic, payload, render)
  }

  /** `guess_device_key(topic, payload)`; `render` is Python's `str()`. */
  function GuessDeviceKey(topic: string, payload: map<string, Value>, render: Value -> string): string
  {
    GuessFrom(DeviceKeys, topic, payload, render)
  }

  /** `payload["ts"] = now` only when the payload has no `ts`. */
  function Stamped(payload: map<string, Value>, now: string): map<string, Value>
  {
    if "ts" in payload then payload else payload["ts" := Chars(now)]
  }

  /**
   * `on_message` up to the database: the parsed payload, the device key guessed from it
   * before the stamp, and the payload as stored. `now` is the ISO text of the receive time.
   */
  method OnMessage(topic: string, raw: string, json: string -> Json, render: Value -> string, now: string)
    returns (deviceKey: string, stored: map<string, Value>)
    ensures var payload := ParseText(Strip(raw), json);
      deviceKey == GuessDeviceKey(topic, payload, render) && stored == Stamped(payload, now)
  {
    var payload := TryParsePayload(raw, json);
    deviceKey := GuessDeviceKey(topic, payload, render);
    stored := StampNow(payload, now);
  }

  /** The receive time goes in only where the payload has no `ts` of its own. */
  method StampNow(payload: map<string, Value>, now: string) returns (stored: map<string, Value>)
    ensures stored == Stamped(payload, now)
  {
    stored := payload;
    if "ts" !in payload {
      stored := stored["ts" := Chars(now)];
    }
  }

  // ---------------------------------------------------------------- properties

  /** Every key of the loop's dictionary comes from an entry, and a key's value is that of its last entry. */
  lemma {:induction false} AssignKeys(entries: seq<(string, Value)>)
    ensures Assign(entries).Keys == set i | 0 <= i < |entries| :: entries[i].0
  {
    if entries != [] {
      var init := entries[..|entries| - 1];
      AssignKeys(init);
      assert forall i :: 0 <= i < |init| ==> init[i] == entries[i];
    }
  }

  lemma {:induction false} AssignLast(entries: seq<(string, Value)>, i: nat)
    requires i < |entries| && forall j :: i < j < |entries| ==> entries[j].0 != entries[i].0
    ensures entries[i].0 in Assign(entries) && Assign(entries)[entries[i].0] == entries[i].1
  {
    if i < |entries| - 1 {
      var init := entries[..|entries| - 1];
      assert init[i] == entries[i];
      AssignLast(init, i);
    }
  }

  /** Tokens with '=' always give a non-empty dictionary, so the `if pairs` test never falls through. */
  lemma {:induction false} KeyValueBranch(text: string, json: string -> Json)
    requires NotContainer(json, text)
    requires WithEquals(Tokenize([text], Separators)) != []
    ensures ParseText(text, json) == Assign(Entries(WithEquals(Tokenize([text], Separators))))
  {
    KeyValuePairs(WithEquals(Tokenize([text], Separators)), text);
  }

  lemma {:induction false} KeyValuePairs(eqs: seq<string>, text: string)
    requires eqs != [] && forall i :: 0 <= i < |eqs| ==> '=' in eqs[i]
    ensures KeyValue(eqs, text) == Assign(Entries(eqs))
  {
    AssignNonEmpty(Entries(eqs));
  }

  lemma {:induction false} AssignNonEmpty(entries: seq<(string, Value)>)
    requires entries != []
    ensures |Assign(entries)| > 0
  {
    assert entries[|entries| - 1].0 in Assign(entries);
  }

  /** Splitting keeps characters other than the separator out of the parts if the text had none. */
  lemma {:induction false} SplitAvoids(s: string, sep: char, c: char)
    requires c !in s
    ensures forall i :: 0 <= i < |Split(s, sep)| ==> c !in Split(s, sep)[i]
  {
    if s != [] {
      SplitAvoids(s[1..], sep, c);
      var rest := Split(s[1..], sep);
      if s[0] != sep {
        assert c !in [s[0]] + rest[0];
      }
    }
  }

  /** Text holding none of ',', ';' or ' ' is a single token. */
  lemma {:induction false} OneToken(text: string)
    requires ',' !in text && ';' !in text && ' ' !in text
    ensures Tokenize([text], Separators) == [text]
  {
    SplitNone(text, ',');
    SplitNone(text, ';');
    SplitNone(text, ' ');
    assert SplitEach([text], ',') == [text];
    assert SplitEach([text], ';') == [text];
    assert SplitEach([text], ' ') == [text];
    assert Separators[1..] == [';', ' '] && Separators[1..][1..] == [' '] && Separators[1..][1..][1..] == [];
  }

  /**
   * '&' is not a separator: a text with '=' but none of ',', ';' or ' ' gives a single
   * key, the text before its first '=', whatever follows.
   */
  lemma {:induction false} SingleKey(text: string, json: string -> Json)
    requires NotContainer(json, text)
    requires '=' in text && ',' !in text && ';' !in text && ' ' !in text
    ensures ParseText(text, json) == map[KeyText(text) := Cast(ValueText(text))]
  {
    OneEntry(text);
    OneToken(text);
    assert WithEquals([text]) == [text];
    TokensParsed(text, json);
  }

  /** A text the JSON parser leaves alone goes to the `key=value` step. */
  lemma {:induction false} TokensParsed(text: string, json: string -> Json)
    requires NotContainer(json, text)
    ensures ParseText(text, json) == KeyValue(WithEquals(Tokenize([text], Separators)), text)
  {
  }

  /** One token with '=' gives the dictionary of that token's key and value. */
  lemma {:induction false} OneEntry(text: string)
    requires '=' in text
    ensures KeyValue([text], text) == map[KeyText(text) := Cast(ValueText(text))]
  {
    KeyValuePairs([text], text);
    var entries := Entries([text]);
    assert entries == [Entry(text)];
    assert entries[..0] == [];
  }

  /** A value holding a character other than digits, '.' and '-' stays text. */
  lemma {:induction false} CastKeepsText(v: string, c: char)
    requires c in v && !IsDigit(c) && c != '.' && c != '-'
    ensures Cast(v) == Chars(v)
  {
    var d1 := RemoveFirst(v, '.');
    var d := RemoveFirst(d1, '-');
    assert c in d1 by {
      if '.' in v {
        var k := Find(v, '.').value;
        var j :| 0 <= j < |v| && v[j] == c;
        if j < k { assert d1[j] == c; } else { assert d1[j - 1] == c; }
      }
    }
    assert c in d by {
      if '-' in d1 {
        var k := Find(d1, '-').value;
        var j :| 0 <= j < |d1| && d1[j] == c;
        if j < k { assert d[j] == c; } else { assert d[j - 1] == c; }
      }
    }
  }

  /** A cast that raises keeps the text: "5-" passes the digit test but `int()` rejects it. */
  lemma {:induction false} CastFailureKeepsText()
    ensures Cast("5-") == Chars("5-")
  {
    assert RemoveFirst("5-", '.') == "5-";
    assert Find("5-", '-') == Some(1);
    assert RemoveFirst("5-", '-') == "5";
    assert LooksNumeric("5-");
    assert ParseInteger("5-") == None by {
      StripUnchanged("5-");
      assert !AllDigits("5-");
    }
  }

  /** Integer text comes back as that integer. */
  lemma {:induction false} CastIntText(i: int)
    ensures Cast(IntText(i)) == Int(i)
  {
    var s := IntText(i);
    var k := if i < 0 then -i else i;
    assert '.' !in s by {
      forall j | 0 <= j < |s|
        ensures s[j] != '.'
      {
        if i < 0 && j > 0 {
          assert s[j] == Digits(k)[j - 1];
        }
      }
    }
    var d := RemoveFirst(s, '-');
    if i < 0 {
      assert Find(s, '-') == Some(0);
      assert d == Digits(-i);
    } else {
      assert forall j :: 0 <= j < |s| ==> s[j] != '-';
    }
    ParseIntText(i);
  }

  /** A JSON object is kept as it is, a JSON array is wrapped as `values`, and any other JSON value is parsed as text. */
  lemma {:induction false} JsonFirst(text: string, json: string -> Json)
    ensures json(text).JsonObject? ==> ParseText(text, json) == json(text).fields
    ensures json(text).JsonArray? ==> ParseText(text, json) == map["values" := Items(json(text).items)]
    ensures NotContainer(json, text) ==> ParseText(text, json) == KeyValue(WithEquals(Tokenize([text], Separators)), text)
  {
  }

  /** Tokens free of a character stay free of it through every split. */
  lemma {:induction false} TokenizeAvoids(tokens: seq<string>, seps: seq<char>, c: char)
    requires forall i :: 0 <= i < |tokens| ==> c !in tokens[i]
    ensures forall i :: 0 <= i < |Tokenize(tokens, seps)| ==> c !in Tokenize(tokens, seps)[i]
    decreases |seps|
  {
    if seps != [] {
      SplitEachAvoids(tokens, seps[0], c);
      TokenizeAvoids(SplitEach(tokens, seps[0]), seps[1..], c);
    }
  }

  lemma {:induction false} SplitEachAvoids(tokens: seq<string>, sep: char, c: char)
    requires forall i :: 0 <= i < |tokens| ==> c !in tokens[i]
    ensures forall i :: 0 <= i < |SplitEach(tokens, sep)| ==> c !in SplitEach(tokens, sep)[i]
  {
    if tokens != [] {
      SplitAvoids(tokens[0], sep, c);
      SplitEachAvoids(tokens[1..], sep, c);
    }
  }

  /** A filter that keeps nothing when no token holds '='. */
  lemma {:induction false} WithEqualsNone(tokens: seq<string>)
    requires forall i :: 0 <= i < |tokens| ==> '=' !in tokens[i]
    ensures WithEquals(tokens) == []
  {
    if tokens != [] {
      WithEqualsNone(tokens[1..]);
    }
  }

  /** Text without '=' skips the `key=value` step. */
  lemma {:induction false} NoEquals(text: string, json: string -> Json)
    requires NotContainer(json, text) && '=' !in text
    ensures ParseText(text, json) == Fallback(text)
  {
    TokenizeAvoids([text], Separators, '=');
    WithEqualsNone(Tokenize([text], Separators));
  }

  function IntTexts(xs: seq<int>): (r: seq<string>)
    ensures |r| == |xs| && forall i :: 0 <= i < |xs| ==> r[i] == IntText(xs[i])
  {
    seq(|xs|, i requires 0 <= i < |xs| => IntText(xs[i]))
  }

  function Ints(xs: seq<int>): (r: seq<Value>)
    ensures |r| == |xs| && forall i :: 0 <= i < |xs| ==> r[i] == Int(xs[i])
  {
    seq(|xs|, i requires 0 <= i < |xs| => Int(xs[i]))
  }

  /** Integer text holds only a leading '-' and digits. */
  lemma {:induction false} IntTextChars(i: int, c: char)
    requires !IsDigit(c) && c != '-'
    ensures c !in IntText(i) && |IntText(i)| >= 1 && !IsSpace(IntText(i)[0]) && !IsSpace(IntText(i)[|IntText(i)| - 1])
  {
    var s := IntText(i);
    var k := if i < 0 then -i else i;
    forall j | 0 <= j < |s|
      ensures IsDigit(s[j]) || (j == 0 && s[j] == '-')
    {
      if i < 0 && j > 0 {
        assert s[j] == Digits(k)[j - 1];
      }
    }
  }

  lemma {:induction false} CsvIntTexts(xs: seq<int>)
    ensures CsvValues(IntTexts(xs)) == Some(Ints(xs))
  {
    if xs != [] {
      CsvIntTexts(xs[1..]);
      CsvIntTextsStep(xs);
    }
  }

  lemma {:induction false} CsvIntTextsStep(xs: seq<int>)
    requires xs != [] && CsvValues(IntTexts(xs[1..])) == Some(Ints(xs[1..]))
    ensures CsvValues(IntTexts(xs)) == Some(Ints(xs))
  {
    IntsCons(xs);
    IntTextChars(xs[0], '.');
    ParseIntText(xs[0]);
    CsvConsInt(IntTexts(xs), xs[0], Ints(xs[1..]));
  }

  lemma {:induction false} IntsCons(xs: seq<int>)
    requires xs != []
    ensures IntTexts(xs)[0] == IntText(xs[0]) && IntTexts(xs)[1..] == IntTexts(xs[1..])
    ensures Ints(xs) == [Int(xs[0])] + Ints(xs[1..])
  {
    assert IntTexts(xs)[1..] == IntTexts(xs[1..]);
    assert Ints(xs) == [Int(xs[0])] + Ints(xs[1..]);
  }

  /** A first part that `int()` reads puts its integer in front of the values of the rest. */
  lemma {:induction false} CsvConsInt(parts: seq<string>, i: int, rest: seq<Value>)
    requires parts != [] && '.' !in parts[0] && ParseInteger(parts[0]) == Some(i)
    requires CsvValues(parts[1..]) == Some(rest)
    ensures CsvValues(parts) == Some([Int(i)] + rest)
  {
  }

  /**
   * Non-blank parts without '=' joined by ',' take the CSV branch: the list of their casts,
   * or the raw text when one cast raises.
   */
  lemma {:induction false} CsvLine(parts: seq<string>, json: string -> Json)
    requires |parts| >= 2 && NotContainer(json, Join(parts, ','))
    requires forall i :: 0 <= i < |parts| ==> ',' !in parts[i] && '=' !in parts[i] && Strip(parts[i]) != []
    ensures ParseText(Join(parts, ','), json)
      == if CsvValues(parts).Some? then map["values" := Items(CsvValues(parts).value)] else map["raw" := Chars(Join(parts, ','))]
  {
    var text := Join(parts, ',');
    SplitJoin(parts, ',');
    assert ',' in text by {
      assert text == parts[0] + [','] + Join(parts[1..], ',');
      assert text[|parts[0]|] == ',';
    }
    JoinAvoids(parts, ',', '=');
    NoEquals(text, json);
    assert CsvShaped(text);
  }

  /** A line of integers joined by ',' is stored as the list of those integers. */
  lemma {:induction false} CsvIntegers(xs: seq<int>, json: string -> Json)
    requires |xs| >= 2 && NotContainer(json, Join(IntTexts(xs), ','))
    ensures ParseText(Join(IntTexts(xs), ','), json) == map["values" := Items(Ints(xs))]
  {
    var parts := IntTexts(xs);
    forall i | 0 <= i < |parts|
      ensures ',' !in parts[i] && '=' !in parts[i] && Strip(parts[i]) != []
    {
      IntTextChars(xs[i], ',');
      IntTextChars(xs[i], '=');
      StripUnchanged(parts[i]);
    }
    CsvLine(parts, json);
    CsvIntTexts(xs);
  }

  /** Joining parts free of a character other than the separator gives text free of it. */
  lemma {:induction false} JoinAvoids(parts: seq<string>, sep: char, c: char)
    requires c != sep && forall i :: 0 <= i < |parts| ==> c !in parts[i]
    ensures c !in Join(parts, sep)
  {
    if |parts| > 1 {
      JoinAvoids(parts[1..], sep, c);
      assert c !in parts[0];
    }
  }

  /** The first device field with a non-blank value names the device; without one, the topic does. */
  lemma {:induction false} GuessFirst(keys: seq<string>, topic: string, payload: map<string, Value>, render: Value -> string, i: nat)
    requires i <= |keys|
    requires forall j :: 0 <= j < i ==> keys[j] !in payload || Strip(render(payload[keys[j]])) == []
    ensures i < |keys| && keys[i] in payload && Strip(render(payload[keys[i]])) != [] ==>
      GuessFrom(keys, topic, payload, render) == Strip(render(payload[keys[i]]))
    ensures i == |keys| ==> GuessFrom(keys, topic, payload, render) == TopicKey(topic)
  {
    if i > 0 {
      var rest := keys[1..];
      assert GuessFrom(keys, topic, payload, render) == GuessFrom(rest, topic, payload, render);
      forall j | 0 <= j < i - 1
        ensures rest[j] !in payload || Strip(render(payload[rest[j]])) == []
      {
        assert rest[j] == keys[j + 1];
      }
      GuessFirst(rest, topic, payload, render, i - 1);
    }
  }

  /** Without a device field the key is the first two topic levels, or the whole topic when it has one level. */
  lemma {:induction false} TopicKeyLevels(topic: string)
    ensures TopicKey(topic) <= topic
    ensures '/' !in topic ==> TopicKey(topic) == topic
    ensures |Split(topic, '/')| >= 2 ==> Split(TopicKey(topic), '/') == Split(topic, '/')[..2]
  {
    var parts := Split(topic, '/');
    JoinSplit(topic, '/');
    if |parts| >= 2 {
      JoinPrefix(parts, 2, '/');
      SplitJoin(parts[..2], '/');
    } else if '/' in topic {
      SplitMany(topic, '/');
    }
  }

  /** The stored payload always has `ts`, keeps one that came with it, and changes nothing else. */
  lemma {:induction false} StampedKeeps(payload: map<string, Value>, now: string)
    ensures "ts" in Stamped(payload, now)
    ensures "ts" in payload ==> Stamped(payload, now) == payload
    ensures "ts" !in payload ==> Stamped(payload, now)["ts"] == Chars(now)
    ensures Stamped(payload, now).Keys == payload.Keys + {"ts"}
    ensures forall k :: k in payload && k != "ts" ==> Stamped(payload, now)[k] == payload[k]
  {
  }
}
