# Biogas monitor: device cycle and reading collector

A Dafny model of the two pieces of logic in the biogas monitoring system.

The device side runs on a single-board computer. It reads three analog
sensors through an MCP3008 converter: an MQ-4 methane sensor on channel 0, an
LM35 temperature sensor on channel 1 and a pH probe on channel 2. It turns the
raw samples into physical values and switches a heat coil on below 30 °C. It
then builds a five-key reading and sends it over HTTP and over LoRa.

The collector side is a small HTTP service. It appends each reading to a
table with an auto-assigned integer key. It answers two queries: the latest
reading, and the readings of the last `hours` hours.

Modules, one per component:

- `Mcp3008` (`mcp3008.dfy`): the three-byte command frame and the decoding of
  the reply, over `bv8`. The layout is the one in section 6.1 of the Microchip
  MCP3004/3008 datasheet, with the start, SGL/DIFF and D2..D0 bits placed as in
  its Table 5-2.
- `Calibration` (`calibration.dfy`): the shared voltage step and the three
  calibrations, over exact `real`s.
- `Heater` (`heater.dfy`): the threshold rule, and a `HeatCoil` class whose
  `high` field is the level last written to GPIO 17.
- `Cycle` (`cycle.dfy`): one collection cycle as a method. SPI transfer
  outcomes, the formatted time and the transport outcomes are its inputs. It
  returns the cycle's result, the payload and a trace of the actions taken.
- `Collector` (`collector.dfy`): the table as a `SensorStore` class holding a
  `seq<Row>` and a `nextId` counter. Ingestion is a method. The two queries are
  functions over the row sequence.
- `EndToEnd` (`end_to_end.dfy`): what the collector stores and answers for a
  payload the device built.
- `Basics` and `Payload`: `Option`/`Result`, and the JSON values and key names
  shared by both sides.

Inputs the model takes as parameters:

- the bus: each SPI transfer either answers three bytes or raises;
- the wall clock: the device gets the formatted time `stamp`. The collector
  gets `now` in integer seconds. `datetime.utcnow` also carries microseconds,
  so `now` matches the source when read as that clock rounded up to the whole
  second: a row stamped at second `now` is inside the window exactly when the
  source's comparison admits it;
- the timestamp parser: a function `parse` from strings to seconds;
- the transports: whether the HTTP post, the LoRa open and the LoRa close raise.

Behaviour worth noting:

- The cycle stops when the HTTP post raises, so LoRa is not tried then.
  `CollectAndSend` states this. A non-2xx answer does not raise, so LoRa is
  still tried after one.
- The heat control makes its own second read of channel 1. It does not reuse
  the temperature already read, so a cycle makes four converter transfers.
- Ingestion raises on a missing key, on a timestamp that does not parse, on a
  string in one of the three Float columns that `float()` cannot convert (the
  model refuses every string there; see "Left out"), and on a null in a NOT NULL column. Numbers are
  stored as floats. A string or number sent as `heat_status` is stored and is not checked
  against ON/OFF.
- The latest-reading query raises when the table is empty. The model's
  `Failure` results stand for the exceptions.
- A zero-hour history returns every row stamped at `now` or later.

## Model

| member | source | states |
|---|---|---|
| `Mcp3008.CommandFrame` | Sensor_Connections.py:33 | The frame is three bytes: 1, then 128 + 16·channel, then 0. |
| `Mcp3008.CommandFrameFields` | Sensor_Connections.py:33 | The frame has the start bit, SGL/DIFF = 1 and D2..D0 equal to the channel, with the low nibble clear. Reading the channel field back gives the channel. |
| `Mcp3008.CommandFrameInjective` | Sensor_Connections.py:33 | Distinct channels get distinct second command bytes. |
| `Mcp3008.Decode` | Sensor_Connections.py:34 | The decoded value lies in 0..1023 for any reply bytes. |
| `Mcp3008.DecodeChipReply` | Sensor_Connections.py:34 | Decoding the reply the converter sends for a sample v in 0..1023 gives v back, whatever the undriven bits hold. |
| `Mcp3008.DecodeIgnoresUndrivenBits` | Sensor_Connections.py:34 | The first reply byte and bits 2..7 of the second do not change the decoded value. |
| `Calibration.Voltage` | Sensor_Connections.py:45 | The shared voltage step maps the ADC range 0..1023 onto 0..3.3 V, with full scale at 3.3 V. The same step is used at lines 65 and 79. |
| `Calibration.Methane` | Sensor_Connections.py:45-54 | The methane reading is never negative. |
| `Calibration.MethaneZeroIff` | Sensor_Connections.py:45-54 | The methane reading is 0 exactly when raw ≤ 31, which is exactly when the voltage is ≤ 0.1 V. |
| `Calibration.MethaneAboveOffset` | Sensor_Connections.py:52-54 | From raw 32 upwards the reading is the unclamped (V − 0.1)·500, and it is positive. |
| `Calibration.MethaneMonotone` | Sensor_Connections.py:45-54 | The methane reading does not decrease as raw grows. |
| `Calibration.Temperature` | Sensor_Connections.py:59-68 | Over the ADC range the temperature lies between 0 and 330 °C. |
| `Calibration.TemperatureLinear` | Sensor_Connections.py:65-68 | Temperature is raw·330/1023 for every raw value, with no clamp. |
| `Calibration.TemperatureMonotone` | Sensor_Connections.py:65-68 | Temperature does not decrease as raw grows. |
| `Calibration.Ph` | Sensor_Connections.py:73-86 | Over the ADC range the pH lies between 7 + (2.5 − 3.3)/0.18 and 7 + 2.5/0.18, with no clamp. |
| `Calibration.PhNeutralPoint` | Sensor_Connections.py:79-84 | Raw 775 is exactly 2.5 V and gives exactly pH 7. |
| `Calibration.PhStrictlyDecreasing` | Sensor_Connections.py:79-86 | pH strictly decreases as raw grows. |
| `Calibration.WorkedExample` | Sensor_Connections.py:45-68 | Raw gas 300 gives between 433.8 and 433.9 ppm. Raw temperature 620 gives exactly 200 °C, which is reported and not clamped. |
| `Heater.Decision` | Sensor_Connections.py:94-99 | The rule commands "ON" iff current < target and "OFF" iff current ≥ target. |
| `Heater.HeatCoil.constructor` | Sensor_Connections.py:22-23 | The coil pin is GPIO 17 and is driven low at start. |
| `Heater.HeatCoil.ControlHeat` | Sensor_Connections.py:90-99 | Returns the rule's state. Afterwards the pin is high iff the result is "ON", iff current < target, whatever its level was before. |
| `Cycle.BuildPayload` | Sensor_Connections.py:142-148 | The payload has exactly the keys methane, temperature, ph, heat_status and timestamp. |
| `Cycle.FirstFault` | Sensor_Connections.py:134-139 | Gives the index of the first failing transfer among the four of a cycle, and is 4 iff all answer. |
| `Cycle.CyclePayload` | Sensor_Connections.py:134-148 | The payload carries the calibrated methane, temperature and pH of transfers 0-2, the heat decision for the second temperature read, and the time stamp. |
| `Cycle.Measure` | Sensor_Connections.py:132-148 | The measuring part of the try body. It stops at the first failing read, builds no payload and leaves the coil untouched. When all four reads answer, it builds the cycle's payload and drives the coil to the decision for the second temperature read. |
| `Cycle.CycleTraceOrder` | Sensor_Connections.py:132-161 | In the action sequence of every cycle, the pin is written only after exactly the four reads. The LoRa send happens iff all reads answer and neither the post nor the LoRa open raises. |
| `Cycle.CollectAndSend` | Sensor_Connections.py:130-168 | A payload is built iff all four reads answer. The cycle succeeds iff, in addition, neither the post nor the LoRa open or close raises. A read failure stops at that read and leaves the coil untouched. The coil is written only after all reads. LoRa is tried only when the post did not raise. |
| `Collector.FirstMissing` | server.py:25-29 | Gives the position of the first key missing from the payload; all keys before it are present. |
| `Collector.Admit` | server.py:14-32 | Over the model's JSON values (null, numbers, strings): a row results iff all five keys are present, the timestamp parses, the three Float columns hold numbers and heat_status is not null. It fails with a missing key exactly when some key is absent. It fails with NotANumber exactly when the keys and the timestamp are fine and a Float column holds a string. The row holds the payload's numbers and heat status. |
| `Collector.MissingPhRejected` | server.py:24-27 | A payload lacking `ph` but holding the keys looked up before it fails with MissingKey("ph"). |
| `Collector.SensorStore.constructor` | server.py:12-18 | The table starts empty, and its first key is 1. |
| `Collector.SensorStore.ReceiveData` | server.py:22-33 | On success it appends exactly the admitted row and keeps earlier rows. The new key differs from every stored key, and keys increase in insertion order. On failure the table and the counter are unchanged. |
| `Collector.LatestIndex` | server.py:37 | Gives a position holding the greatest timestamp; every earlier position has a smaller one. |
| `Collector.GetLatest` | server.py:36-44 | Fails iff the table is empty. Otherwise it answers a stored row whose timestamp is ≥ every stored timestamp. |
| `Collector.LatestAfterNewerAppend` | server.py:31-37 | After appending a row newer than all stored rows, the latest query answers that row. |
| `Collector.LatestOfThree` | server.py:37 | For rows at T1 < T2 < T3 the latest query answers the T3 row. |
| `Collector.IngestRoundTrip` | server.py:24-44 | Ingesting a well-formed, newer payload and then querying the latest gives the payload's own values back. |
| `Collector.Entries` | server.py:52-57 | Projects each row to its timestamp, methane, temperature and ph, keeping the order. |
| `Collector.Window` | server.py:50-57 | Every entry returned has timestamp ≥ the threshold, and there are no more entries than rows. |
| `Collector.WindowCount` | server.py:50 | The answer holds exactly one entry per stored row meeting the threshold, duplicates included. |
| `Collector.WindowUnique` | server.py:50-57 | Any in-order selection of the table's entries that lies inside the window and has one entry per qualifying row is the answer itself. |
| `Collector.WindowComplete` | server.py:50 | Every stored row meeting the threshold appears in the answer. |
| `Collector.WindowInStoreOrder` | server.py:50-57 | The answer is a subsequence of the table's entries, in store order. |
| `Collector.WindowMonotone` | server.py:49-50 | A lower threshold answers a supersequence. |
| `Collector.Threshold` | server.py:49 | The threshold is `now` minus 3600·hours seconds, and it is at or before `now` iff hours ≥ 0. |
| `Collector.GetHistory` | server.py:47-57 | Every entry is at or after now − 3600·hours, with hours 24 when absent. The answer is an in-order selection of the table's entries, with one entry per qualifying row. |
| `Collector.HistoryMonotone` | server.py:48-50 | If h1 ≤ h2, the h1 answer is a subsequence of the h2 answer. |
| `Collector.WindowAll` | server.py:50-57 | When every row meets the threshold, the answer is the whole table in order. |
| `Collector.WindowNone` | server.py:50 | When every row is older than the threshold, the answer is empty. |
| `Collector.HistoryZeroHours` | server.py:48-50 | With hours = 0 the answer is empty when every row is older than `now`. |
| `Collector.HistoryDefault` | server.py:48-49 | Without an argument the window is 24 hours, i.e. 86400 seconds. |
| `EndToEnd.CyclePayloadAdmitted` | Sensor_Connections.py:142-148 | The collector accepts a payload built by a cycle whenever the stamp parses, and stores its values field for field. |
| `EndToEnd.DeliveredReadingIsLatest` | server.py:22-44 | After a newer cycle payload is ingested, the latest query answers the device's computed methane, temperature, pH, heat state and time. |

## Left out

- The SPI transfer itself, opening the bus, GPIO setup and cleanup, and the LoRa transceiver are hardware calls. Transfers are inputs and the coil pin is a field. The pin write `GPIO.output` is modelled as never raising.
- `setup_lora` and `send_lora_data`: only whether opening or closing the LoRa device raises is modelled. The JSON serialisation and the byte transfer are not; the send catches its own errors.
- `requests.post`: the HTTP delivery, its 5-second timeout and its answer are left out. Whether it raises is an input of the cycle.
- The `while True` loop with its `time.sleep` interval and the interrupt handling are an unbounded timed loop, and are left out.
- Flask routing, `jsonify`, CORS, SQLAlchemy sessions and commit, SQLite storage and the dashboard page are replaced by an in-memory sequence. A non-object request body is not modelled.
- `Cycle.CollectAndSend`: the payload holds exact values. `round(x, 2)` and IEEE float behaviour are not modelled.
- `time.strftime` and `datetime.strptime` are not modelled. The device's formatted time is a string input, and the collector's parser is a function parameter. The end-to-end lemmas assume the parser accepts the device's string.
- `Collector.GetLatest`: the answer's timestamp is in seconds. `strftime` formatting of the answer is not modelled.
- `Collector.GetHistory`: the query argument is taken as an already converted integer. `int()` failing on a malformed string is not modelled.
- `Collector.GetHistory`: subtracting `timedelta(hours=hours)` raises `OverflowError` when the result leaves the datetime range (years 1 to 9999), e.g. for about 17.7 million hours or more, or for very negative `hours`. The model answers a window for every integer. So `Collector.HistoryMonotone`, `Collector.WindowAll` and the other window lemmas also cover arguments where the source raises.
- `Collector.WindowInStoreOrder`: the history query has no ORDER BY. "Store order" is the rowid scan order SQLite uses for such a query, and the model takes it as the order of the answer.
- `Collector.Admit`: a numeric string or a boolean in a Float column is converted by `float()` and stored. The model has no boolean values and refuses every string there.
- `Collector.Admit`: JSON arrays, objects and booleans are not values of the model. The source raises on an array or object in any of the four data columns (`float()` or the SQLite binding refuses it), and stores a boolean `heat_status` as its integer text "1" or "0".
- `Collector.Admit`: a JSON integer too large for a float makes `float()` raise `OverflowError`. The model's numbers are unbounded reals and are stored.
- `Collector.Admit`: a number sent as `heat_status` is stored as given. SQLite's TEXT affinity for that column would store its text form.
- The wall clocks (`datetime.utcnow`, local `time.strftime`) are parameters. The local-time versus UTC mismatch between the two sides is not modelled.
- `Collector.LatestIndex`: among rows with equal greatest timestamps it picks the earliest inserted. The storage engine leaves that choice unspecified.
- Key assignment is modelled as a counter. SQLite gives max(key) + 1, which is the same for a table that only grows.
- `Collector.Admit`: the failure kind it reports when several problems coexist follows the lookup order. The exception types and HTTP 500 answers are not modelled.
