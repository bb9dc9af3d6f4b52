# Telemetry pipeline: firmware encoders, server decoders, analytics filters

A Dafny model of the core of a campus network-telemetry pipeline. GPS and ESP32 nodes
measure WiFi signal and throughput, encode each reading as `key=value` pairs joined by
`&`, and publish it over MQTT. Two Python subscribers decode the messages into database
rows. A local Flask server serves test files and renders a throughput map as an RGB565
bitmap. The analytics scripts filter the stored rows by campus zone and by hour.

What is modelled, module by module (one module per source file, plus shared helpers):

- **Firmware nodes.** Each sketch is a `class` whose fields are the sketch's globals.
  The node runs on a `Board.Device`, which holds the WiFi and MQTT connection state, the
  scripted answers of the radio, the broker and the GPS receiver, and the trace of
  everything the board has done (connects, pauses, subscribes, publishes, serial and
  display output). Every method states its new trace and state. A few serial prints
  are not in the trace; "## Left out" lists them.
  - `PublisherMain`: Publisher_Node/main.h.
  - `PublisherGtu7`: Publisher_Node/GTU7.h.
  - `LocalGtu7`: LocalConnections/GTU7_MQTT.cpp.
  - `PackagesGtu7`: MQTT_packages/GTU7_MQTT.cpp.
  - `Esp32Client` and `Esp32Main`: ESP32_Code/src.
  - `TemoralClient`: __ESP32_Code_Temoral/src.
  - Shared pieces of the GTU7 sketches are in `Gtu7`. The UTC-6 clock display is in `Clock`.
- **Timing and retries.**
  - `millis()` is a 32-bit unsigned counter. Every `millis() - last > interval` gate is
    computed modulo 2^32 (`Board.Due`). `Board.DueIffLater` shows that a gate opens exactly
    when that much time has really passed, even across a wrap of the counter.
  - Retry loops run until the first success in their script of outcomes.
- **Encoders.**
  - `Wire` holds the `&`-joined payloads and the ThingSpeak topics.
  - `Numbers.Fmt` is Arduino `String(x, p)`, written out in exact arithmetic.
  - `Numbers.ParseDecimal` and `Numbers.ParseInteger` are Python `float()` and `int()` on
    plain decimal text. `Numbers.ParseFmt` proves that the server reads back x rounded to
    p places.
- **Decoders.**
  - `DbHandler` is Cyber_Layer/DB_Handler: `parse_qsl` (in `UrlEncoded`), the column
    conversions, the `ts` fallbacks and `on_message`.
  - `Broker` is Broker_Mosquitto: `try_parse_payload`, `guess_device_key` and the
    timestamp enrichment.
  - `Pipeline` connects encoders to decoders:
    - A Publisher node reading reaches the database rounded to 2 places, stamped with the
      device's own date and carrying its device id.
    - An ESP32 reading has only six fields. Its sixth field is the device id, so the row
      gets no device id and is stamped with the receive time.
    - The Temoral node's `&`-joined message reaches the Mosquitto bridge as a single key,
      `rssi`. That bridge splits only at `,`, `;` and space. The device is then named after
      its topic, `esp32/data`.
- **Local server.**
  - `LocalServer` models the RGB565 packing and byte layout of `/plot.bin` and its status
    codes.
  - `LocalServer.Metrics` is a class holding the in-memory counters that `serve_file` and
    `upload` update.
- **Analytics.**
  - `AnalysisLayer` and `VisualizeData` model the zone filters (with the axes swapped
    between the two files), `load_data`'s row dropping, per-hour grouping and means, the
    hour window, and the early returns of the page generators. They use the shared frame
    functions in `Frames` and `Averages`.

Oracles stand for code that is foreign to the model. Each is a function parameter, and a
lemma states only what it needs of it:
- `iso` is `datetime.fromisoformat`;
- `json` is `json.loads`;
- `render` is Python `str()`;
- `toMeters` is `get_meters`;
- `draw` is the plotting libraries;
- `fetched` is the database query.

Credentials and the clock are parameters too.

The constants of the ESP32 nodes come from their configuration files:
- the ESP32 node publishes on channel 3150959, the `channelID` macro of ESP32_Code/include/config.h:23;
- both nodes use the device id `ESP32_01` and a send interval of 20000 ms (`DEVICE_ID` and `SEND_INTERVAL` of ESP32_Code/src/config.cpp and ESP32_Code_Temoral/src/config.cpp);
- the Temoral node connects with the client id `ESP32_TEST` (`MQTT_CLIENT_ID` of ESP32_Code_Temoral/src/config.cpp), and its `channelID` is 0, passed along but never used in a topic.

## Model

| member | source | states |
|---|---|---|
| DbHandler.FieldsKeys | Cyber_Layer/DB_Handler/mqtt_to_postgres.py:102-110 | the parsed dictionary always holds exactly the seven keys rssi, down, up, lat, lon, ts and device_id, so it is never empty |
| DbHandler.NeverWarned | Cyber_Layer/DB_Handler/mqtt_to_postgres.py:143-156 | the `if parsed` test never fails: a message is inserted, or logged as an error exactly when `parse_payload` raised; the "could not parse" warning is unreachable |
| DbHandler.InsertedRow | Cyber_Layer/DB_Handler/mqtt_to_postgres.py:72-79 | an inserted row carries the parsed device and the five readings, and the receive time exactly when the parsed `ts` is None |
| DbHandler.ParsePairsColumns | Cyber_Layer/DB_Handler/mqtt_to_postgres.py:102-107 | the pairs parse exactly when each of field1..field5 is absent or text `float()` accepts; each reading is then that number, or None when its field is absent |
| DbHandler.ParsePairsByColumn | Cyber_Layer/DB_Handler/mqtt_to_postgres.py:102-110 | the row is built exactly when each of the five column conversions succeeds, and each reading is that conversion's value |
| DbHandler.BuildColumns | Cyber_Layer/DB_Handler/mqtt_to_postgres.py:102-110 | the dictionary literal succeeds exactly when all five conversions do, and then holds their values with the given ts and device |
| DbHandler.ParsePairsRaises | Cyber_Layer/DB_Handler/mqtt_to_postgres.py:103-107 | when some field among field1..field5 is unreadable, the first such field is the one whose `float()` raises |
| DbHandler.ParsePairsStamp | Cyber_Layer/DB_Handler/mqtt_to_postgres.py:108-127 | device_id is field7's text unconverted; ts is None without field6, the ISO reading of field6 (with 'Z' replaced by "+00:00") when that parses, else the Unix reading of `float(field6)` when it falls in the years 1 to 9999 that `utcfromtimestamp` can hold, else None, and never raises |
| DbHandler.ParsePairsDevice | Cyber_Layer/DB_Handler/mqtt_to_postgres.py:109 | the device of a parsed row is `pairs.get("field7")` |
| DbHandler.EmptyPayload | Cyber_Layer/DB_Handler/mqtt_to_postgres.py:99-110 | an empty payload parses, to a row with every column None |
| Broker.TryParsePayload | Broker_Mosquitto/mqtt_to_postgres.py:152-197 | the method's dictionary is that of the specification function on the stripped text: the JSON object, the wrapped JSON array, the `key=value` dictionary, the CSV list or the raw text, tried in that order |
| Broker.KeyValueStep | Broker_Mosquitto/mqtt_to_postgres.py:166-197 | the `key=value` step returns the loop's dictionary when some token has '=' and the dictionary is not empty, otherwise falls through to the CSV and raw fallbacks |
| Broker.SplitTokens | Broker_Mosquitto/mqtt_to_postgres.py:167-171 | the loop over the separators ',', ';' and ' ' leaves the tokens of splitting the text at each one in turn |
| Broker.Collect | Broker_Mosquitto/mqtt_to_postgres.py:174-184 | the loop leaves the dictionary of the entries assigned in order |
| Broker.OnMessage | Broker_Mosquitto/mqtt_to_postgres.py:220-230 | the device key is guessed from the parsed payload before the timestamp is added, and the stored payload is the parsed one stamped with the receive time |
| Broker.StampNow | Broker_Mosquitto/mqtt_to_postgres.py:227-228 | the receive time is added under `ts` only when the payload has none |
| Broker.SplitEach | Broker_Mosquitto/mqtt_to_postgres.py:171 | no token left after a split holds the separator, and there are at least as many pieces as tokens |
| Broker.SplitEachJoin | Broker_Mosquitto/mqtt_to_postgres.py:171 | joining all the pieces with the separator gives the tokens joined with it: nothing is lost, added or reordered |
| Broker.SplitEachIsSplit | Broker_Mosquitto/mqtt_to_postgres.py:171 | the pieces are exactly those of splitting the tokens' join at the separator, in order |
| Broker.WithEquals | Broker_Mosquitto/mqtt_to_postgres.py:172 | the filter keeps at most as many tokens as it is given, each holding '=' |
| Broker.WithEqualsKeeps | Broker_Mosquitto/mqtt_to_postgres.py:172 | a token is kept exactly when it is among the input and holds '=', and the kept tokens are a subsequence of the input |
| Broker.AssignKeys | Broker_Mosquitto/mqtt_to_postgres.py:174-184 | the keys of the loop's dictionary are exactly the keys of the entries |
| Broker.AssignLast | Broker_Mosquitto/mqtt_to_postgres.py:184 | a key takes the value of its last entry: a later pair overwrites an earlier one |
| Broker.KeyValueBranch | Broker_Mosquitto/mqtt_to_postgres.py:172-186 | tokens with '=' always give a non-empty dictionary, so the `if pairs` test never falls through to the CSV step |
| Broker.SingleKey | Broker_Mosquitto/mqtt_to_postgres.py:166-186 | '&' is not a separator: a text with '=' and none of ',', ';' or ' ' gives a single key, the lower-cased text before its first '=', with everything after it as the value |
| Broker.CastKeepsText | Broker_Mosquitto/mqtt_to_postgres.py:179 | a value holding a character other than digits, '.' and '-' stays text |
| Broker.CastFailureKeepsText | Broker_Mosquitto/mqtt_to_postgres.py:179-183 | a value that passes the digit test but that `int()` rejects ("5-") stays text |
| Broker.CastIntText | Broker_Mosquitto/mqtt_to_postgres.py:179-181 | the decimal text of any integer is cast back to that integer |
| Broker.JsonFirst | Broker_Mosquitto/mqtt_to_postgres.py:155-164 | a JSON object is returned as it is, a JSON array is wrapped under `values`, and any other JSON value or a decode error goes on to the `key=value` step |
| Broker.NoEquals | Broker_Mosquitto/mqtt_to_postgres.py:172-173 | text without '=' skips the `key=value` step and goes to the fallbacks |
| Broker.CsvLine | Broker_Mosquitto/mqtt_to_postgres.py:188-197 | non-blank parts without '=' joined by ',' give the list of their casts under `values`, or the raw text when one cast raises |
| Broker.CsvIntegers | Broker_Mosquitto/mqtt_to_postgres.py:188-192 | a line of integers joined by ',' is stored as the list of those integers |
| Broker.GuessFirst | Broker_Mosquitto/mqtt_to_postgres.py:210-215 | the first of device_id, device, id, mac, chipid, node whose value renders non-blank names the device, stripped; with none the topic does |
| Broker.TopicKeyLevels | Broker_Mosquitto/mqtt_to_postgres.py:216-218 | the topic key is a prefix of the topic: the whole topic when it has no '/', otherwise its first two levels |
| Broker.StampedKeeps | Broker_Mosquitto/mqtt_to_postgres.py:226-228 | the stored payload always has `ts`, keeps one that came with the message, and changes no other key |
| AnalysisLayer.FilterByZoneSpec | Analytics_Layer/AnalysisLayer.py:73-83 | only the five zone names are known and any other raises `Unknown zone`; for a known zone the result keeps, in order, exactly the rows whose longitude lies in [xmin, xmax] and latitude in [ymin, ymax], each as many times as it occurs in the input |
| AnalysisLayer.FilterByZoneAppend | Analytics_Layer/AnalysisLayer.py:80-83 | filtering a concatenation filters each part: the mask never reorders rows |
| AnalysisLayer.LoadDataSpec | Analytics_Layer/AnalysisLayer.py:59-70 | the cleaned frame keeps, in order, exactly the rows with lat, lon, down and up present, each as many times as it occurs in the input |
| AnalysisLayer.HourlyStatsLoadedSpec | Analytics_Layer/AnalysisLayer.py:59-93 | `compute_hourly_stats` on what `load_data` returns raises for a bad metric, and otherwise raises `AttributeError` exactly when the query returned no rows, because that frame is returned before `ts` is converted; fetched rows that are all dropped give an empty table |
| AnalysisLayer.SurfaceEmpty | Analytics_Layer/AnalysisLayer.py:107-108 | an empty frame gives the no-data page whatever the metric |
| AnalysisLayer.SurfaceMetric | Analytics_Layer/AnalysisLayer.py:111-112 | a non-empty frame raises exactly when the metric is not down, up or rssi |
| AnalysisLayer.SurfaceNoWindow | Analytics_Layer/AnalysisLayer.py:116-136 | with either hour bound missing no row is filtered out and every row is drawn |
| AnalysisLayer.SurfaceWindow | Analytics_Layer/AnalysisLayer.py:116-136 | with both bounds exactly the rows whose hour lies in [start, end] are drawn, in order and with their repeats, and the empty-window page is shown exactly when there is none |
| Frames.FilterMembers | Analytics_Layer/AnalysisLayer.py:80-83 | a boolean mask keeps a row exactly when the row is in the frame and the mask holds for it |
| Frames.FilterAll | Analytics_Layer/AnalysisLayer.py:80-83 | every row a mask keeps satisfies it, and the result is no longer than the frame |
| Frames.FilterSubsequence | Analytics_Layer/AnalysisLayer.py:80-83 | a mask keeps the rows in their order: the result is a subsequence of the frame |
| Frames.FilterCounts | Analytics_Layer/AnalysisLayer.py:80-83 | a mask keeps every copy of a row it accepts and no copy of a row it rejects, so repeated rows survive as often as they occur |
| Frames.FilterAppend | Analytics_Layer/AnalysisLayer.py:80-83 | masking a concatenation masks each part |
| Frames.FilterTwice | Analytics_Layer/AnalysisLayer.py:80-83 | applying the same mask twice changes nothing |
| Frames.ParseMetricAccepts | Analytics_Layer/AnalysisLayer.py:89-90 | only "down", "up" and "rssi" are accepted, each for its own column; any other name raises |
| Frames.AtHourNonEmpty | Analytics_Layer/AnalysisLayer.py:93-97 | an hour has rows exactly when some sample was taken in it |
| Frames.StatsFromSorted | Analytics_Layer/AnalysisLayer.py:96-101 | the groups from hour h on are strictly ascending and all at h or later |
| Frames.StatsFromMeans | Analytics_Layer/AnalysisLayer.py:97-98 | each group carries the mean of its own hour's non-NaN values |
| Frames.StatsFromHours | Analytics_Layer/AnalysisLayer.py:97 | there is a group for exactly the hours from h on that have rows |
| Frames.StatsHoursSampled | Analytics_Layer/AnalysisLayer.py:93-99 | the table has a row for exactly the hours at which samples were taken |
| Frames.HourlyStatsShape | Analytics_Layer/AnalysisLayer.py:87-101 | on a frame whose `ts` holds datetimes, `compute_hourly_stats` raises exactly for a metric other than down, up and rssi; otherwise one row per distinct hour of the frame, strictly ascending, each the mean of that hour's values |
| Frames.GroupMeanBounds | Analytics_Layer/AnalysisLayer.py:97-98 | each hourly mean lies between any lower and upper bound of that hour's values |
| Frames.ValuesBounds | Analytics_Layer/AnalysisLayer.py:97-98 | the non-NaN values of a column keep the bounds of the rows they come from |
| Frames.Values | Analytics_Layer/AnalysisLayer.py:97-98 | a column has at most as many non-NaN values as the frame has rows |
| Frames.Group | Analytics_Layer/AnalysisLayer.py:97-98 | an hour contributes at most one group, of that hour and with that hour's mean |
| Averages.SumAtLeast | Analytics_Layer/AnalysisLayer.py:98 | n values all at least lo sum to at least n * lo |
| Averages.SumAtMost | Analytics_Layer/AnalysisLayer.py:98 | n values all at most hi sum to at most n * hi |
| Averages.MeanAtLeast | Analytics_Layer/AnalysisLayer.py:98 | a mean is at least any lower bound of its values |
| Averages.MeanAtMost | Analytics_Layer/AnalysisLayer.py:98 | a mean is at most any upper bound of its values |
| Averages.MeanConstant | Analytics_Layer/AnalysisLayer.py:98 | the mean of equal values is that value |
| VisualizeData.FilterByZoneSpec | Analytics_Layer/VisualizeData.py:88-98 | only the three zone names are known and any other raises `Unknown zone`; for a known zone the result keeps, in order, exactly the rows whose latitude lies in [xmin, xmax] and longitude in [ymin, ymax], each as many times as it occurs in the input |
| VisualizeData.CampusDegenerate | Analytics_Layer/VisualizeData.py:19 | the "campus" rectangle has no area: it admits only rows at latitude 1000 and longitude 0 |
| VisualizeData.AxesSwapped | Analytics_Layer/VisualizeData.py:95-98 | the same bounds select mirrored points here and in AnalysisLayer.py: a row is inside here exactly when its mirror is inside there |
| VisualizeData.LoadDataSpec | Analytics_Layer/VisualizeData.py:76-84 | the cleaned frame keeps, in order, exactly the rows with both coordinates, even without speeds, each as many times as it occurs in the input |
| VisualizeData.LoadDataKeepsMoreRows | Analytics_Layer/VisualizeData.py:83 | a located row without a download speed survives here but not AnalysisLayer.py's `load_data` |
| VisualizeData.GeneratePlotChecks | Analytics_Layer/VisualizeData.py:118-128 | an empty frame gives the no-data page whatever the metric; a non-empty one raises exactly for a metric other than down, up and rssi, and is drawn whole otherwise |
| VisualizeData.GenerateHeatmapChecks | Analytics_Layer/VisualizeData.py:192-209 | an empty frame gives the heatmap's own page, which differs from the plot's; a non-empty frame goes to the interpolation unchanged |
| LocalServer.Red5 | Cyber_Layer/Local_Server/server.py:283 | the kept red field fits in 5 bits |
| LocalServer.Green6 | Cyber_Layer/Local_Server/server.py:284 | the kept green field fits in 6 bits |
| LocalServer.Blue5 | Cyber_Layer/Local_Server/server.py:285 | the kept blue field fits in 5 bits |
| LocalServer.PackFields | Cyber_Layer/Local_Server/server.py:287 | the packed word keeps each field in its own bits: shifting and masking gives back red, green and blue |
| LocalServer.PackAll | Cyber_Layer/Local_Server/server.py:287 | every 16-bit word is the packing of its own three fields, so words and 5-6-5 triples correspond one to one |
| LocalServer.PackSum | Cyber_Layer/Local_Server/server.py:287 | the fields do not overlap, so the OR is the sum r * 2048 + g * 32 + b |
| LocalServer.PackValue | Cyber_Layer/Local_Server/server.py:287 | as a number the word is r * 2048 + g * 32 + b, below 2^16, so nothing is lost in `uint16` |
| LocalServer.Rgb565Channels | Cyber_Layer/Local_Server/server.py:283-287 | a pixel's word carries the top 5 bits of red, the top 6 of green and the top 5 of blue |
| LocalServer.LittleEndianValue | Cyber_Layer/Local_Server/server.py:288 | `astype("<u2")` gives two bytes, low byte first, that read back to the word |
| LocalServer.WordsAt | Cyber_Layer/Local_Server/server.py:288 | two bytes per pixel, the k-th pixel's word at offsets 2k and 2k + 1 |
| LocalServer.PixelsLength | Cyber_Layer/Local_Server/server.py:280-288 | a w-wide image has rows * w pixels |
| LocalServer.PixelsAt | Cyber_Layer/Local_Server/server.py:280-288 | row-major order: pixel (i, j) of a w-wide image is the (i * w + j)-th |
| LocalServer.BodyAt | Cyber_Layer/Local_Server/server.py:280-288 | pixel (i, j) is serialised at byte 2(i * w + j), low byte first, and the body is 2 * w * h bytes |
| LocalServer.FrameSize | Cyber_Layer/Local_Server/server.py:246-290 | a 160 x 128 frame is exactly 40960 bytes |
| LocalServer.Frame | Cyber_Layer/Local_Server/server.py:243-244 | the frame keeps the rows in order, each with its download speed as throughput, 0 where the speed is null |
| LocalServer.PlotBinStatus | Cyber_Layer/Local_Server/server.py:222-295 | `/plot.bin` answers 404 exactly when the query returns no rows, 200 exactly when rows came back and the drawing succeeded, 500 otherwise; every failure has an empty body and a success carries the serialised image |
| LocalServer.PlotBinSize | Cyber_Layer/Local_Server/server.py:246-290 | a drawn 160 x 128 image gives a 200 response of 40960 bytes |
| LocalServer.MbpsSign | Cyber_Layer/Local_Server/server.py:83 | a speed is never negative, and it is 0 exactly for an empty transfer or a duration that is not positive |
| LocalServer.Metrics.constructor | Cyber_Layer/Local_Server/server.py:29-38 | the counters start at zero with empty speed lists |
| LocalServer.Metrics.ServeFile | Cyber_Layer/Local_Server/server.py:76-89 | one download speed, the file size over the send duration, is appended; the download average becomes the mean of the list and the query counter goes up by one; the upload side is unchanged and every query leaves one speed behind |
| LocalServer.Metrics.Upload | Cyber_Layer/Local_Server/server.py:103-129 | one upload speed, the body length over the read duration, is appended; the reply carries size, duration and speed with status 200; the upload average becomes the mean of the list and the counter goes up by one; the download side is unchanged |
| PublisherMain.ThroughputDown | Publisher_Node/main.h:88-128 | a non-zero download rate means WiFi was up and the GET answered 200, and is then the measured rate; otherwise 0.0 |
| PublisherMain.ThroughputUp | Publisher_Node/main.h:130-166 | a non-zero upload rate means WiFi was up, the 100 KB buffer was allocated and the POST answered 200, and is then the measured rate; otherwise 0.0 |
| PublisherMain.MessageParts | Publisher_Node/main.h:262-280 | with an id free of '&' the message splits at '&' into exactly seven parts, `fieldN=` followed by the N-th value, the id verbatim last |
| PublisherMain.IdNotEscaped | Publisher_Node/main.h:270-277 | the values are not escaped: an id holding '&' splits the message into more than seven parts |
| PublisherMain.ValuesClean | Publisher_Node/main.h:271-276 | the six numbers ahead of the id hold no '&' |
| PublisherMain.Node.constructor | Publisher_Node/main.h:22-38 | position, satellites, date and both timers start at zero |
| PublisherMain.Node.ConnectMqtt | Publisher_Node/main.h:239-250 | the loop retries every 2 s until a connect succeeds, consumes exactly the attempts up to the first success, and leaves the session up |
| PublisherMain.Node.LoopMqtt | Publisher_Node/main.h:257-260 | connects only when disconnected, then polls once; the session is up afterwards |
| PublisherMain.Node.GpsRead | Publisher_Node/main.h:179-207 | snapshots are read, pausing 3 s after each invalid one, until the first valid fix; its satellites and date are kept and its position is converted to metres once |
| PublisherMain.Node.GetMeters | Publisher_Node/main.h:209-225 | the position is overwritten by its conversion and nothing else changes |
| PublisherMain.Node.SerialGps | Publisher_Node/main.h:227-234 | prints the position and satellites and moves `lastPrint` exactly when more than 3000 ms have passed in unsigned arithmetic |
| PublisherMain.Node.PublishData | Publisher_Node/main.h:282-291 | exactly when more than 10000 ms have passed, `lastPub` moves and the seven-field message is printed and published on "channels/test/publish"; otherwise nothing changes |
| PublisherMain.Node.AppLoop | Publisher_Node/main.h:304-309 | one loop: the MQTT session is kept, the GPS read until valid, then the gated print and the gated publish of the converted position, in that order |
| PublisherMain.Node.Sense | Publisher_Node/main.h:305-306 | `loopMQTT` then `gps_read`, leaving both timers alone |
| PublisherMain.Node.Output | Publisher_Node/main.h:307-308 | `serial_gps` then `publishData`, each behind its own gate, leaving the position alone |
| PublisherMain.Node.Announce | Publisher_Node/main.h:288-289 | the payload is printed, then published on the channel topic |
| LocalGtu7.Tracker.constructor | LocalConnections/GTU7_MQTT.cpp:153-168 | the account constants are fixed and position, satellites, date and the update timer start at zero |
| LocalGtu7.Tracker.WifiConnect | LocalConnections/GTU7_MQTT.cpp:288-298 | returns at once when associated; otherwise reports, retries `WiFi.begin` with a 3 s pause until the first successful status, and reports the connection |
| LocalGtu7.Tracker.MqttConnect | LocalConnections/GTU7_MQTT.cpp:301-318 | retries `connect` with the account, pausing 3 s after each failure, until the first success |
| LocalGtu7.Tracker.MqttSubscribe | LocalConnections/GTU7_MQTT.cpp:321-324 | one subscribe to `channels/<id>/subscribe` |
| LocalGtu7.Tracker.MqttPublish | LocalConnections/GTU7_MQTT.cpp:337-340 | one publish on `channels/<id>/publish`, delivered only with a session |
| LocalGtu7.Tracker.GpsRead | LocalConnections/GTU7_MQTT.cpp:215-227 | the satellites, date and converted position of the decoded state are stored; this is the one case in which the do-while returns |
| LocalGtu7.NoSignalHangs | LocalConnections/GTU7_MQTT.cpp:215-225 | a decoded state without signal keeps the do-while running for ever: after any number of passes it is still running, having printed the no-signal line and waited 3 s on each |
| LocalGtu7.SignalReturns | LocalConnections/GTU7_MQTT.cpp:215-225 | a decoded state with signal ends the do-while after its first pass, with nothing printed |
| LocalGtu7.Tracker.GpsReadFresh | LocalConnections/GTU7_MQTT.cpp:215-227 | with decoding inside the wait: snapshots are read, pausing 3 s after each without signal, until the first with signal; its position is converted to metres once |
| LocalGtu7.Tracker.Present | LocalConnections/GTU7_MQTT.cpp:196-202 | prints latitude and longitude at 5 places and the satellites, draws the display with the unguarded hour, and publishes the three-field prompt with the date shifted to UTC-6 |
| LocalGtu7.Tracker.Keep | LocalConnections/GTU7_MQTT.cpp:172-182 | WiFi is joined when needed, the MQTT session re-established and the channel re-subscribed only when it was down, then one poll; both links are up afterwards, the WiFi and connect outcomes left are those the join and the reconnect did not use, and the snapshots are untouched |
| LocalGtu7.Tracker.Update | LocalConnections/GTU7_MQTT.cpp:186-202 | decodes one GPS snapshot, which must have a signal, then prints, draws with the unguarded hour and publishes the converted position; both links and their remaining outcomes are unchanged |
| LocalGtu7.Tracker.Loop | LocalConnections/GTU7_MQTT.cpp:171-206 | every pass keeps both links, leaving the WiFi and connect outcomes the join and the reconnect did not use; the update runs, consuming one snapshot, and `lastUpdate` moves exactly when more than 1000 ms have passed in unsigned arithmetic; otherwise the position and the snapshots are untouched |
| Gtu7.SubscribeOnlyAfterReconnect | LocalConnections/GTU7_MQTT.cpp:176-179 | a subscribe goes out exactly when the session had to be re-established, once and last, after exactly one connect per attempt |
| Gtu7.NoSubscribeInRetries | LocalConnections/GTU7_MQTT.cpp:303-317 | a connect retry loop emits only connect attempts and pauses |
| Gtu7.PromptParts | LocalConnections/GTU7_MQTT.cpp:343-351 | the prompt splits at '&' into exactly `field1=<lat>`, `field2=<lon>` and `field3=<date>`, in that order |
| Clock.GuardedHourLocal | Publisher_Node/GTU7.h:180-190 | with the else branch the displayed hour is always two digits and reads (h + 18) mod 24, the UTC-6 hour |
| Clock.UnguardedFromSix | LocalConnections/GTU7_MQTT.cpp:274-276 | from 06:00 UTC on the unguarded display prints the same text as the guarded one |
| Clock.UnguardedBeforeSix | LocalConnections/GTU7_MQTT.cpp:274-276 | before 06:00 UTC the unguarded display appends `hour - 6` as a second, negative number: four characters, not all digits |
| Clock.UnguardedAtThree | LocalConnections/GTU7_MQTT.cpp:274-276 | 03:00 UTC is displayed as "21-3" |
| Clock.PaddedTwoDigits | LocalConnections/GTU7_MQTT.cpp:278-282 | a minute or second below 100 is printed as two digits that read back as its value |
| Clock.ParseNatLeadingZero | LocalConnections/GTU7_MQTT.cpp:278-279 | the leading "0" printed before a small value does not change the number read |
| Clock.GuardedTimeShape | Publisher_Node/GTU7.h:180-198 | with the guarded hour the time text is eight characters, `HH:MM:SS`, each field two digits |
| PublisherGtu7.AlwaysSubscribes | Publisher_Node/GTU7.h:226-248 | every `mqtt_connect` subscribes exactly once, as its last step, even when the session was already up, after one connect per attempt |
| PublisherGtu7.ScreenTime | Publisher_Node/GTU7.h:180-198 | for a GPS time the display's third line is "Time: " and `HH:MM:SS`, each field two digits, the hour reading (h + 18) mod 24 |
| PublisherGtu7.Node.constructor | Publisher_Node/GTU7.h:33-67 | the account constants are fixed and position, satellites, date and both timers start at zero |
| PublisherGtu7.Node.GpsRead | Publisher_Node/GTU7.h:96-126 | snapshots are stored, pausing 3 s after each one whose location is not valid, until the first valid one; its position is converted to metres once |
| PublisherGtu7.Node.SerialGps | Publisher_Node/GTU7.h:152-159 | prints the position at 5 places and the satellites, and moves `lastPrint`, exactly when more than 3000 ms have passed |
| PublisherGtu7.Node.DisplayGps | Publisher_Node/GTU7.h:162-201 | the display shows the three lines: the coordinates in metres and the guarded UTC-6 time |
| PublisherGtu7.Node.WifiConnect | Publisher_Node/GTU7.h:204-216 | returns at once when associated; otherwise reports, retries `WiFi.begin` with a 3 s pause until the first successful status, and reports the connection |
| PublisherGtu7.Node.MqttConnect | Publisher_Node/GTU7.h:226-248 | retries `connect` every 3 s until connected, then subscribes whatever the state was |
| PublisherGtu7.Node.MqttSubscribe | Publisher_Node/GTU7.h:251-254 | one subscribe to `channels/<id>/subscribe` |
| PublisherGtu7.Node.MqttPublish | Publisher_Node/GTU7.h:267-287 | exactly when more than 10000 ms have passed, `lastPub` moves and the three-field prompt with the UTC-6 date goes to `channels/<id>/publish`; otherwise nothing changes |
| PackagesGtu7.Coordinate | MQTT_packages/GTU7_MQTT.cpp:234-235 | a coordinate never keeps the invalid-angle sentinel: the sentinel becomes 0, any other value is kept |
| PackagesGtu7.Satellites | MQTT_packages/GTU7_MQTT.cpp:236 | the satellite count never keeps the invalid-satellites sentinel: it becomes 0, any other count is kept |
| PackagesGtu7.PayloadParts | MQTT_packages/GTU7_MQTT.cpp:200 | the published text splits on `&` into exactly `field1=<lat>` and `field2=<lon>`, two decimals each |
| PackagesGtu7.SentinelNeverPublished | MQTT_packages/GTU7_MQTT.cpp:194-200 | the payload is built from the cleaned coordinates, so an invalid latitude goes out as `field1=0.00` |
| PackagesGtu7.Tracker.constructor | MQTT_packages/GTU7_MQTT.cpp:48-62 | coordinates, satellites, the date fields and `lastUpdate` start at zero |
| PackagesGtu7.Tracker.WifiConnect | MQTT_packages/GTU7_MQTT.cpp:276-285 | prints the two messages around the join loop, which retries `WiFi.begin` with a 3 s pause until the first successful status |
| PackagesGtu7.Tracker.SerialGps | MQTT_packages/GTU7_MQTT.cpp:233-240 | replaces the sentinels in place and prints the cleaned position at 8 places and the satellite count |
| PackagesGtu7.Tracker.Update | MQTT_packages/GTU7_MQTT.cpp:184-200 | consumes one GPS snapshot, stores its cleaned position and date, then prints, draws (with the unguarded hour) and publishes in that order; both links and their remaining outcomes are unchanged |
| PackagesGtu7.Tracker.Keep | MQTT_packages/GTU7_MQTT.cpp:168-179 | joins WiFi only when disassociated and reconnects and subscribes only when the session is down, then polls; both links end up, the WiFi and connect outcomes left are those the join and the reconnect did not use, and the snapshots are untouched |
| PackagesGtu7.Tracker.Loop | MQTT_packages/GTU7_MQTT.cpp:168-204 | every pass keeps both links, leaving the outcomes the join and the reconnect did not use; the update runs, consuming one snapshot, and `lastUpdate` moves, exactly when more than 10000 ms have passed on the 32-bit clock; otherwise the position, the date and the snapshots are unchanged |
| Esp32Client.MessageParts | ESP32_Code/src/mqtt_client.cpp:95-100 | for an id without `&` the message splits into exactly `field1` to `field6`, in order rssi, down, up (2 decimals), lat, lon (5 decimals) and the device id; there is no timestamp field |
| Esp32Client.Client.constructor | ESP32_Code/src/mqtt_client.cpp:13 | the client is bound to the board's network stack |
| Esp32Client.Client.ConnectMqtt | ESP32_Code/src/mqtt_client.cpp:60-77 | returns at once when connected; otherwise retries `connect` with the configured login, pausing 2000 ms after each failure, until the first success |
| Esp32Client.Client.LoopMqtt | ESP32_Code/src/mqtt_client.cpp:87-90 | reconnects only when the session is down, then polls exactly once; the session ends up |
| Esp32Client.Client.MqttPublish | ESP32_Code/src/mqtt_client.cpp:92-108 | one publish of the six-field message on `channels/<id>/publish`, followed by the three report lines; the result is the transport's answer and nothing is retried |
| Esp32Client.Client.PublishData | ESP32_Code/src/mqtt_client.cpp:110-119 | the readings are published once on channel 3150959 with the id `ESP32_01` |
| Esp32Main.App.constructor | ESP32_Code/src/main.cpp:5 | `lastSend` starts at 0 |
| Esp32Main.App.Loop | ESP32_Code/src/main.cpp:14-22 | the session is kept first on every pass, leaving the connect outcomes the reconnect did not use, with WiFi, its outcomes and the snapshots unchanged; the data is published, and `lastSend` becomes `now`, exactly when `now - lastSend > 20000` in 32-bit unsigned arithmetic |
| TemoralClient.MessageParts | __ESP32_Code_Temoral/src/mqtt_client.cpp:61-67 | for an id without `&` the message splits into exactly six `key=value` parts with the keys rssi, down, up, lat, lon, device in that order, lat and lon at 5 decimals |
| TemoralClient.Client.constructor | __ESP32_Code_Temoral/src/mqtt_client.cpp:8-9 | the client is bound to the board's network stack |
| TemoralClient.Client.ConnectMqtt | __ESP32_Code_Temoral/src/mqtt_client.cpp:14-33 | returns at once when connected; otherwise retries `connect` with the client id only, pausing 2000 ms after each failure, until the first success |
| TemoralClient.Client.LoopMqtt | __ESP32_Code_Temoral/src/mqtt_client.cpp:46-51 | reconnects only when the session is down, then polls exactly once |
| TemoralClient.Client.MqttPublish | __ESP32_Code_Temoral/src/mqtt_client.cpp:56-79 | whatever the channel argument, one publish to `esp32/data` followed by the report lines; the result is the transport's answer, never retried |
| TemoralClient.Client.PublishData | __ESP32_Code_Temoral/src/mqtt_client.cpp:83-93 | takes one fresh GPS snapshot first and publishes exactly once, with that snapshot's position and the id `ESP32_01` |
| Board.Elapsed | Publisher_Node/main.h:283 | `millis() - last` is the difference taken modulo 2^32: the plain difference when the clock has not wrapped, the difference plus 2^32 when it has |
| Board.ElapsedAcrossWrap | Publisher_Node/main.h:283 | for two instants less than 2^32 ms apart, the wrapped difference of their clock readings is the true elapsed time, even across a wrap |
| Board.DueIffLater | Publisher_Node/GTU7.h:268 | a `millis() - last > interval` gate opens exactly when more than `interval` ms have really passed since `last` was read |
| Board.RetriesCount | Publisher_Node/main.h:239-250 | a connect loop that met k failures made k + 1 attempts, paused k times, and ended with an attempt |
| Board.CountAppend | Publisher_Node/main.h:239-250 | occurrences of an event in two consecutive stretches of activity add up |
| Board.FirstSuccess | LocalConnections/GTU7_MQTT.cpp:292-296 | the index a retry loop stops at: an accepted outcome preceded only by failures |
| Board.SuccessAhead | LocalConnections/GTU7_MQTT.cpp:292-296 | after some failures the remaining outcomes still hold the success the loop is waiting for |
| Board.FirstAccepted | Publisher_Node/GTU7.h:96-126 | the snapshot a read-until-valid loop stops at: an accepted one preceded only by rejected ones |
| Board.Device.constructor | Publisher_Node/main.h:22-38 | at boot neither WiFi nor MQTT is up and nothing has been done |
| Board.Device.ConnectMqtt | ESP32_Code/src/mqtt_client.cpp:62-76 | returns at once when the session is up; otherwise the connect loop runs to its first success, consuming exactly the outcomes it used |
| Board.Device.Reconnect | ESP32_Code/src/mqtt_client.cpp:62-76 | with the session down: k failed connects, each followed by the pause, then the accepting connect, where k is the index of the first success |
| Board.Device.TryConnect | ESP32_Code/src/mqtt_client.cpp:64-75 | one attempt: the session is up exactly when the broker accepted, and a refusal is followed by the pause |
| Board.Device.ConnectWifi | MQTT_packages/GTU7_MQTT.cpp:279-283 | returns at once when associated; otherwise `WiFi.begin` and the pause repeat until the first successful status check |
| Board.Device.Rejoin | MQTT_packages/GTU7_MQTT.cpp:279-283 | while disassociated: k + 1 begin-and-pause rounds where k is the index of the first successful status |
| Board.Device.BeginWifi | MQTT_packages/GTU7_MQTT.cpp:280-282 | one round: begin, pause, and the association is the next scripted status |
| Board.Device.Publish | ESP32_Code/src/mqtt_client.cpp:103 | a publish answers false without a session and the transport's answer otherwise; one publish event is recorded and nothing else changes |
| Board.Device.Emit | ESP32_Code/src/mqtt_client.cpp:89 | output, subscribe, poll and pause events are recorded in order and change no connection state |
| Board.Device.Sample | MQTT_packages/GTU7_MQTT.cpp:190-191 | one GPS snapshot is consumed without any validity check |
| Board.Device.ReadFix | Publisher_Node/GTU7.h:96-126 | snapshots are consumed, with a pause after each rejected one, up to and including the first accepted one, which is returned |
| Wire.SplitEncode | Publisher_Node/main.h:270-277 | `key=value` parts joined with `&` split back at `&` into exactly the parts, one per field, when no key or value holds `&` |
| Wire.SplitEncodeLeaks | Publisher_Node/main.h:270-277 | nothing is escaped: a `&` inside the last value yields more parts than there were fields |
| Wire.SplitNumbered | ESP32_Code/src/mqtt_client.cpp:95-100 | numbered values free of `&` split back into `field1=...` to `fieldN=...`, in order |
| Wire.NumberedLeaks | Publisher_Node/main.h:276-277 | a `&` in the last numbered value (the device id) is not escaped and yields extra parts |
| Wire.SplitNamed | __ESP32_Code_Temoral/src/mqtt_client.cpp:61-67 | values sent under given keys split back into `key=value` parts, pairwise and in order |
| Wire.Numbered | ESP32_Code/src/mqtt_client.cpp:95-100 | the i-th value goes out under `field<i+1>` |
| Wire.FieldKeyInjective | ESP32_Code/src/mqtt_client.cpp:95-100 | distinct positions get distinct field names |
| Wire.TopicLevels | LocalConnections/GTU7_MQTT.cpp:321-340 | for a channel without `/` the publish and subscribe topics have three levels, the channel in the middle |
| Wire.TopicsDistinct | Publisher_Node/GTU7.h:251-287 | a publish topic is never a subscribe topic, and two publish topics coincide exactly when their channels do |
| UrlEncoded.Unquote | Cyber_Layer/DB_Handler/mqtt_to_postgres.py:99 | percent decoding leaves text without `%` unchanged and never empties a non-empty text |
| UrlEncoded.UnquoteEscape | Cyber_Layer/DB_Handler/mqtt_to_postgres.py:99 | decoding undoes the `%XX` escaping of every character's UTF-8 bytes, so any text, an escaped `&`, `=` or `+` included, reaches the subscriber intact |
| UrlEncoded.DecodeEncode | Cyber_Layer/DB_Handler/mqtt_to_postgres.py:99 | the UTF-8 decoder with replacement reads the UTF-8 encoding of any text back to that text |
| UrlEncoded.Utf8Decodes | Cyber_Layer/DB_Handler/mqtt_to_postgres.py:99 | the encoding of one character is taken as one complete sequence and decodes to that character |
| UrlEncoded.UnquoteLoneByte | Cyber_Layer/DB_Handler/mqtt_to_postgres.py:99 | `%E9` alone is not UTF-8 and decodes to U+FFFD, not to the character with code E9 |
| UrlEncoded.UnquoteTwoBytes | Cyber_Layer/DB_Handler/mqtt_to_postgres.py:99 | `%C3%A9`, the UTF-8 encoding of U+00E9, decodes to that one character |
| UrlEncoded.Entry | Cyber_Layer/DB_Handler/mqtt_to_postgres.py:99 | each `&` part gives at most one pair and never one with an empty value |
| UrlEncoded.Collect | Cyber_Layer/DB_Handler/mqtt_to_postgres.py:99 | the parsed pairs are no more than the parts and all carry non-empty values |
| UrlEncoded.EntryDropped | Cyber_Layer/DB_Handler/mqtt_to_postgres.py:99 | parts without `=` and parts with an empty value are dropped |
| UrlEncoded.ToDictKeys | Cyber_Layer/DB_Handler/mqtt_to_postgres.py:99 | `dict(...)` holds exactly the names that occur among the pairs |
| UrlEncoded.ToDictLast | Cyber_Layer/DB_Handler/mqtt_to_postgres.py:99 | for a repeated name the dictionary keeps the value of its last occurrence |
| UrlEncoded.ParseEncode | Cyber_Layer/DB_Handler/mqtt_to_postgres.py:99 | fields joined by the firmware, with no `&`, `%`, `+` in them, no `=` in a key and no empty value, come back from `parse_qsl` as the same pairs in order |
| UrlEncoded.DictOfEncode | Cyber_Layer/DB_Handler/mqtt_to_postgres.py:99 | for such fields, the dictionary maps each key to the value of its last field |
| Numbers.FmtShape | ESP32_Code/src/mqtt_client.cpp:95-99 | `String(x, p)` text is at least `d.d`: an optional minus exactly for negatives, digits, one point, `p` fraction digits, a digit last |
| Numbers.FmtAvoids | Publisher_Node/main.h:270-276 | `String(x, p)` text holds no character other than digits, the point and the minus, so never the `&` separator |
| Numbers.ParseFmt | Cyber_Layer/DB_Handler/mqtt_to_postgres.py:103-107 | `float()` of `String(x, p)` is x rounded half away from zero to p places |
| Numbers.RoundedError | Cyber_Layer/DB_Handler/mqtt_to_postgres.py:103-107 | that rounded value is within half a unit of the p-th place of x and keeps x's sign unless it is 0 |
| Numbers.ShiftValue | Publisher_Node/main.h:271-276 | the integer and fraction digits printed recombine to the scaled value |
| Numbers.ParseIntText | Broker_Mosquitto/mqtt_to_postgres.py:179 | decimal integer text reads back through `int()` as the same integer |
| Numbers.ParseDecimalIntText | Cyber_Layer/DB_Handler/mqtt_to_postgres.py:103-107 | decimal integer text reads back through `float()` as the same value |
| Numbers.ParseDecimalRejects | Cyber_Layer/DB_Handler/mqtt_to_postgres.py:103-107 | text whose first character is not blank, a digit, a sign or a point is rejected by the modelled `float()`, which leaves out `inf` and `nan` |
| Numbers.IntTextNumeral | Publisher_Node/GTU7.h:278-279 | an integer printed in decimal holds only digits after an optional minus |
| Text.Split | Broker_Mosquitto/mqtt_to_postgres.py:171 | `split(sep)` never returns an empty list and no part holds the separator |
| Text.JoinSplit | Broker_Mosquitto/mqtt_to_postgres.py:167-171 | joining the parts of a split with the same separator gives back the text |
| Text.SplitJoin | Publisher_Node/main.h:270-277 | separator-free parts joined and split again give back the parts |
| Text.SplitMany | Broker_Mosquitto/mqtt_to_postgres.py:188 | text holding the separator splits into at least two parts |
| Text.Find | Broker_Mosquitto/mqtt_to_postgres.py:175 | the first occurrence of a character: absent exactly when the character is, otherwise an index holding it with none before |
| Text.RemoveFirst | Broker_Mosquitto/mqtt_to_postgres.py:179 | `replace(c, "", 1)` is the identity without `c` and shortens the text by one with it |
| Text.Lower | Broker_Mosquitto/mqtt_to_postgres.py:176 | `lower()` on ASCII text: each capital becomes its small letter and every other character is kept |
| Text.StripLeftSpec | Broker_Mosquitto/mqtt_to_postgres.py:176-177 | the left strip drops only blanks and keeps a suffix that starts with a non-blank |
| Text.StripRightSpec | Broker_Mosquitto/mqtt_to_postgres.py:176-177 | the right strip drops only blanks and keeps a prefix that ends with a non-blank |
| Text.StripBlank | Broker_Mosquitto/mqtt_to_postgres.py:188 | `strip()` gives the empty text exactly when every character is blank |
| Text.ParseNatDigits | Publisher_Node/GTU7.h:278-279 | decimal digits of a number read back as that number |
| Pipeline.NumberedKeys | Cyber_Layer/DB_Handler/mqtt_to_postgres.py:99 | the subscriber's dictionary of a numbered firmware message holds exactly `field1` to `fieldN` |
| Pipeline.NumberedDict | Cyber_Layer/DB_Handler/mqtt_to_postgres.py:99-109 | `fieldN` maps to the N-th value sent, and `pairs.get` answers it |
| Pipeline.NumberedAbsent | Cyber_Layer/DB_Handler/mqtt_to_postgres.py:108-109 | a number beyond the last value names no field, so its column reads as missing |
| Pipeline.SevenFields | Cyber_Layer/DB_Handler/mqtt_to_postgres.py:99-130 | a seven-field message with readable numbers and a numeric, non-ISO sixth field within the years `utcfromtimestamp` holds parses to those numbers, the Unix time of the sixth and the seventh as device id |
| Pipeline.SixFields | Cyber_Layer/DB_Handler/mqtt_to_postgres.py:99-130 | a six-field message whose sixth field is neither ISO nor a number parses to the five numbers with no time and no device id |
| Pipeline.PublisherToDatabase | Cyber_Layer/DB_Handler/mqtt_to_postgres.py:94-130 | for a date in the years 1 to 9999, the Publisher node's message parses to its readings rounded to 2 places, its date as the Unix time and its device id |
| Pipeline.PublisherInserted | Cyber_Layer/DB_Handler/mqtt_to_postgres.py:143-156 | so `on_message` inserts exactly that row, stamped with the device's own date |
| Pipeline.Esp32ToDatabase | Cyber_Layer/DB_Handler/mqtt_to_postgres.py:94-130 | the ESP32 message parses to rssi, down, up at 2 places and lat, lon at 5, with no time and no device id, because its sixth field is the id |
| Pipeline.Esp32IdNotNumber | Cyber_Layer/DB_Handler/mqtt_to_postgres.py:122-126 | the id `ESP32_01` is not read as a number |
| Pipeline.Esp32RowsAnonymous | Cyber_Layer/DB_Handler/mqtt_to_postgres.py:72-79 | every ESP32 row is inserted without a device id and stamped with the receive time |
| Pipeline.SingleTextKey | Broker_Mosquitto/mqtt_to_postgres.py:166-186 | a `key=value` text whose value holds `&` but no comma, semicolon or space becomes a one-key dictionary holding the whole value as text |
| Pipeline.TemoralParts | __ESP32_Code_Temoral/src/mqtt_client.cpp:61-67 | the Temoral message is `rssi=` followed by one token holding the remaining five `key=value` parts after `&` |
| Pipeline.TemoralToBroker | Broker_Mosquitto/mqtt_to_postgres.py:152-218 | the broker bridge reads the whole Temoral message as the single key `rssi` and names the device after its topic, `esp32/data` |
| Pipeline.NoDeviceField | Broker_Mosquitto/mqtt_to_postgres.py:210-215 | a payload whose only key is `rssi` has none of the six device-id fields |
| Pipeline.TopicNamesDevice | Broker_Mosquitto/mqtt_to_postgres.py:210-218 | so the device key is the whole two-level topic `esp32/data` |

## Left out

**Weaker contracts**

- LocalServer.Metrics.ServeFile: the average is the exact mean of the list. The source rounds it with `round(..., 2)` in floating point, and that rounding is not modelled.
- LocalServer.Metrics.Upload: the same holds for the upload average.
- LocalServer.MbpsSign: speeds are exact reals. Float division and its rounding are not modelled.
- PublisherMain.ThroughputDown: the measured rate is an input. The timing and the floating-point Mbps computation are not modelled. The contract states when the result can be non-zero and what it is then.
- PublisherMain.ThroughputUp: the measured rate is an input as well. Publisher_Node/main.h:162 divides by 1e3 where the download path divides by 1e6. That divisor is part of the unmodelled float computation.
- PublisherMain.Node.GetMeters: the conversion to metres (`get_meters`, a flat-earth projection with `cos`) is an oracle parameter `toMeters`. The same holds for LocalGtu7 and PublisherGtu7.
- LocalGtu7.Tracker.GpsRead: requires the decoded state to have a signal. Without one the sketch's do-while prints and waits for ever, because nothing inside it decodes more input (LocalConnections/GTU7_MQTT.cpp:215-225). A method cannot return there; `LocalGtu7.NoSignalHangs` states that case instead.
- Text.Lower: maps ASCII capitals only. Python `lower()` also maps the other Unicode capitals, some of them to two characters, and Σ by its context. The model keeps every non-ASCII character.
- DbHandler.ParsePairsStamp: `utcfromtimestamp` is modelled by its range: from year 1 to year 9999 after rounding half-even to the microsecond. Float rounding of the seconds before that is not modelled.
- Numbers.ParseFmt: `String(x, p)` is modelled in exact arithmetic, rounding half away from zero at p places. The float32 value the firmware holds, and its own rounding, are not modelled.

**Numbers and text**

- Number parsing covers plain decimal text only. It has an optional sign, ASCII digits and one point. Exponents, `inf`, `nan`, `_` digit separators and non-ASCII digits are rejected. Python accepts some of these in `float()`, `int()` and `str.isdigit()`.
- Integer overflow of `float()` is not modelled.
- Byte decoding is identity on characters. This covers `msg.payload.decode("utf-8", errors="ignore")` and `raw.decode(errors="ignore")`.

**Foreign code**

These are oracle parameters: `datetime.fromisoformat`, `json.loads`, Python `str()` of non-text values and `datetime.now`/`utcnow` (the receive-time parameter). `datetime.utcfromtimestamp` is a `Stamp` value built from the seconds, defined where its range allows.

**Firmware**

- Device I/O is an event in the trace, without content beyond its arguments. This covers WiFi association, PubSubClient, the OLED display driver and serial output.
- The HTTP transfers of `getThroughputDown` and `getThroughputUp` (Publisher_Node/main.h:88-166) are not in the trace: their status codes and rates are the `Transfer` inputs of `PublisherMain.ThroughputDown` and `PublisherMain.ThroughputUp`.
- Serial prints around the connection loops are not in the trace, among others:
  - the "Connecting to MQTT..." lines before each connect (ESP32_Code/src/mqtt_client.cpp:63, __ESP32_Code_Temoral/src/mqtt_client.cpp:17, Publisher_Node/main.h:241);
  - the "successful" and "MQTT connected to" reports after a connect succeeds (ESP32_Code/src/mqtt_client.cpp:65-69, __ESP32_Code_Temoral/src/mqtt_client.cpp:21, Publisher_Node/GTU7.h:236, LocalConnections/GTU7_MQTT.cpp:310);
  - the status digits and the `rc=` lines inside the retry loops;
  - the "no signal" line printed for each snapshot without a fix inside the GPS wait loops of `Board.Device.ReadFix` (Publisher_Node/main.h:199, Publisher_Node/GTU7.h:117). `LocalGtu7.NoSignalHangs` does keep the one of LocalConnections/GTU7_MQTT.cpp:221;
  - the throughput `printf` lines of the Publisher node (Publisher_Node/main.h:102, 126, 155 and 164).
- Retry-forever liveness cannot be proved. Each connection loop requires its script of outcomes to hold a success, which stands for "the broker eventually accepts".
- GPS sentence decoding (NMEA) inside TinyGPS/TinyGPSPlus is not modelled. Each snapshot's validity, position, satellite count and date are inputs, and the invalid-angle sentinel is the constant 1000.
- The start-up code is not modelled: `setup`, `gps_init`, `oled_init` (including its endless loop when the display is missing), `mqtt_init`, `setupMQTT`, `app_setup` and the MQTT client configuration (server, port, buffer size, CA certificate).
- The MQTT subscription callbacks only print what arrives, so they are left out: `mqttCallback` and `mqtt_callback`.
- The WiFi join helpers are left out. `connectWiFi` in Publisher_Node/main.h begins once and polls the status every 500 ms. The wifi_manager of the Temoral node is the same.
- TimeLib `now()` is a parameter (the epoch) and `setTime` is not modelled. The date sent in the Publisher node's seventh field and in the LocalConnections prompt is that epoch shifted by six hours.
- Account credentials (WiFi SSID and password, MQTT user and password) are parameters of the sketch classes. Their values are not part of the model.

**Server side**

- These are not modelled:
  - SQL;
  - the connection pools;
  - `insert_flat_if_possible`, `insert_reading`, `upsert_device` and `ensure_schema`;
  - the tenacity `@retry` decorator;
  - paho's network threads.

  The model is single-threaded. `on_message` is modelled up to the row or payload it hands to the database.
- Local server: the `/plot` (HTML) and `/metrics` routes are not modelled. Plotly, kaleido and PIL image production are the `draw` oracle, and the database query is the `fetched` parameter. In `serve_file` and `upload` the code opens and commits a database connection without running a statement, and the inserts are commented out; none of this is modelled.
- Analytics: these are not modelled:
  - `griddata` interpolation and the Plotly figures;
  - `syn_data`'s random rows (`load_data` in VisualizeData.py takes its frame as a parameter);
  - the module-level file write in Analytics_Layer/VisualizeData.py.

  `pd.to_numeric(errors="coerce")` and `pd.to_datetime` are modelled by their outcome: a value is present or missing, and each row carries its hour.
- AnalysisLayer.HourlyStatsLoaded: the `AttributeError` for an empty query result rests on pandas giving an empty `read_sql` column the object dtype, which `.dt` refuses. No code in the repository calls `compute_hourly_stats`, so this composition is what such a caller would meet.

  `AnalysisLayer.generate_heatmap` is the same code as the one in VisualizeData.py. It is modelled once, by `VisualizeData.GenerateHeatmapChecks`.

## Findings

| source | as written | input that shows it | evidently intended | confidence | as-written member | corrected member |
|---|---|---|---|---|---|---|
| LocalConnections/GTU7_MQTT.cpp:274-276 | before 06:00 UTC the display prints `hour + 18` and then, with no `else`, also `hour - 6`, so the time line shows a negative second number | GPS hour 3 shows `21-3` | `21`, the UTC-6 hour, as Publisher_Node/GTU7.h:184-188 prints it with the `else` in place | not executed | Clock.UnguardedAtThree | Clock.GuardedHourLocal |
| MQTT_packages/GTU7_MQTT.cpp:262-264 | the same display code without `else` | GPS hour 3 shows `21-3` | `21` | not executed | Clock.UnguardedBeforeSix | Clock.GuardedHourLocal |
| LocalConnections/GTU7_MQTT.cpp:215-225 | `gps_read` waits in a do-while for the latitude to leave `NO_SIGNAL`, but decodes no GPS input inside it, so the latitude can never change | a snapshot without a fix when the update is due: the node prints "GPS has no signal" every 3 s for ever and never reconnects or publishes again | decode inside the wait, as Publisher_Node/GTU7.h:96-122 does | not executed | LocalGtu7.NoSignalHangs | LocalGtu7.Tracker.GpsReadFresh |

The display models of both sketches (`LocalGtu7.UpdateEvents` and `PackagesGtu7.Screen`) use the hour as written, `Clock.UnguardedHour`, so `Clock.UnguardedAtThree` and `Clock.UnguardedBeforeSix` apply to their traces. `Clock.GuardedHour` is the corrected hour; `PublisherGtu7` uses it, as its own source does. `LocalGtu7.Tracker.Update` reads as written (`LocalGtu7.Tracker.GpsRead`); `LocalGtu7.Tracker.GpsReadFresh` is the corrected read.
