# Smart street-light dashboard: ingestion core

This project models the data core of the Streamlit page `dashboard_streetlight.py`. A street-light node publishes frames `{<timestamp>;<intensity>;<voltage>}` over MQTT. The page's core does four things:

- It decodes each frame into a row. The relay and lamp state in the row come from the voltage.
- It keeps the rows in a log capped at 1000 entries and records the newest row as `last_data`.
- It tracks the broker connection in session state: `mqtt_connected`, `connection_status`, `connection_error`, the client handle and the last connection attempt.
- It computes summary statistics over the log and bands the light intensity for the metric card.

Modules:

- `Text`: the Python string built-ins the decoder uses, `str.strip` (with the full `str.isspace` character set) and `str.split` on `;`; and `str(int)`, which `on_connect` uses to render an unknown reason code.
- `Frame`: the frame format and the decoder, the parsing half of `on_message`. Python's `float()` and `datetime.strptime` are the function parameters `parseNumber` and `parseTime`. Each gives `None` where the Python call raises. `datetime.now()` is the parameter `now`.
- `Session`: the class `DashboardState`, with one field per session-state key. Its methods are the writes done by `on_connect`, `on_disconnect`, `on_message`, `connect_mqtt`, `disconnect_mqtt` and the "Reset Data" button. The bounded log is the function `BoundedAppend`, with lemmas about it.
  - The object invariant `Valid()` states three facts about the page's state: the log holds at most 1000 rows; every row is a decoded row, so its relay and lamp state follow from its voltage; and `last_data` is the newest row.
- `Statistics`: `calculate_statistics` as a pure function on the log.
- `Metrics`: the intensity banding of the metric card.

The paho client runs its callbacks inside `client.loop()`, which the page calls during its own run. So the model treats every callback as a sequential method call.

Three facts about the code shape the model:

- The callbacks write session state directly. There is no queue between them and the page, and no reconnect loop.
- The log's cap is the literal 1000 at line 143.
- The "latest timestamp" of the statistics is `df["timestamp"].max()` (line 479): the largest timestamp in the log, which need not be that of the row appended last (`Statistics.LatestIsMaximum`).

## Model

| member | source | states |
|---|---|---|
| `Text.Strip` | dashboard_streetlight.py:96-98 | the result has no whitespace at either end and is a contiguous piece of the input with only whitespace cut from both sides |
| `Text.StripPadded` | dashboard_streetlight.py:96-98 | stripping undoes any whitespace padding of a trimmed string, so `strip` returns the unique trimmed core |
| `Text.Split` | dashboard_streetlight.py:93 | `split(";")` yields one more part than there are `;`; no part contains `;`; the parts join back to the input |
| `Text.SplitJoin` | dashboard_streetlight.py:93 | splitting undoes joining of `;`-free parts, the converse of the round trip in `Split` |
| `Text.IntToString` | dashboard_streetlight.py:73 | the `{rc}` rendering is a non-empty string of decimal digits with no leading zero (0 renders as "0"), preceded by `-` exactly when the code is negative; `IntToStringRoundTrip` shows it reads back as the same integer |
| `Text.IntToStringRoundTrip` | dashboard_streetlight.py:73 | the decimal rendering of the reason code in `f"Error code: {rc}"` reads back as the same integer |
| `Frame.Unwrap` | dashboard_streetlight.py:91-92 | the payload is accepted exactly when it starts with `{` and ends with `}`; it is then `{` + inner + `}` |
| `Frame.Fields` | dashboard_streetlight.py:91-95 | a payload yields fields exactly when it is braced and its inner text has two `;` (three parts); the payload is then the rendering of those `;`-free fields |
| `Frame.FieldsOfRender` | dashboard_streetlight.py:90-95 | every frame built from three `;`-free fields is accepted with exactly those fields |
| `Frame.DeriveStates` | dashboard_streetlight.py:118-126 | relay is MATI iff voltage is exactly 0.0; relay is AKTIF iff voltage is exactly 220.0; lamp is MENYALA iff relay is MATI; lamp is MATI iff relay is AKTIF; otherwise both are UNKNOWN |
| `Frame.Decode` | dashboard_streetlight.py:84-136 | a row comes out exactly when the frame has the braces and three fields; its source tag is "MQTT REAL" and its states follow from voltage; intensity and voltage are the parses of the trimmed fields; the timestamp is the parsed one or `now` |
| `Frame.DecodeRender` | dashboard_streetlight.py:90-136 | decoding a rendered frame gives the row built from the trimmed fields |
| `Frame.DecodeCanonical` | dashboard_streetlight.py:90-136 | a frame whose fields carry no padding decodes to those fields as they are |
| `Frame.RejectsUnbraced` | dashboard_streetlight.py:91 | a payload missing the opening or closing brace decodes to nothing; there is no outer trim |
| `Frame.RejectsFieldCount` | dashboard_streetlight.py:93-95 | a braced payload whose inner text has other than two `;` decodes to nothing |
| `Frame.BadFieldsKept` | dashboard_streetlight.py:101-115 | an unparsable intensity leaves the frame accepted with intensity absent; an unparsable timestamp becomes `now` |
| `Frame.DecodeExampleActive` | dashboard_streetlight.py:285-286 | the firmware's example frame gives intensity 35, voltage 220, relay AKTIF, lamp MATI |
| `Frame.DecodeExampleLit` | dashboard_streetlight.py:118-120 | voltage 0.0 gives relay MATI, lamp MENYALA |
| `Frame.DecodeExampleBadIntensity` | dashboard_streetlight.py:101-104 | intensity "abc" is kept as absent, the rest of the row as usual |
| `Frame.DecodeExampleEmptyFields` | dashboard_streetlight.py:93-126 | `{;;}` is accepted with every value absent and both states UNKNOWN |
| `Frame.DecodeExampleTrailingNewline` | dashboard_streetlight.py:91 | a frame followed by a newline is dropped |
| `Frame.DecodeExampleNoFields` | dashboard_streetlight.py:93-95 | `{}` is dropped (one part) |
| `Session.ErrorMessage` | dashboard_streetlight.py:66-73 | codes 1–5 map to the fixed texts of the table; every other code maps to "Error code: " followed by the code in decimal |
| `Session.ErrorMessageNamesCode` | dashboard_streetlight.py:66-75 | the reason code can be read back from the message, so distinct codes give distinct error messages |
| `Session.BoundedAppend` | dashboard_streetlight.py:140-144 | the new log has min(old length + 1, 1000) rows and is the tail of old log + row |
| `Session.BoundedAppendShape` | dashboard_streetlight.py:140-144 | below capacity the log grows by exactly the row; at capacity it drops the oldest row; the row is always last |
| `Session.AppendAllKeepsLast` | dashboard_streetlight.py:140-144 | appending rows one at a time keeps exactly the last 1000 of the whole history, in arrival order |
| `Session.OverflowKeepsNewest` | dashboard_streetlight.py:140-144 | after 1000 + k rows into an empty log, the log is the last 1000 rows |
| `Session.DashboardState.constructor` | dashboard_streetlight.py:18-40 | the initial session state: not connected, "❌ TIDAK TERKONEKSI", no error, empty log, no last row, no client, "Belum pernah" |
| `Session.DashboardState.OnConnect` | dashboard_streetlight.py:55-76 | rc 0 sets connected and "✅ TERKONEKSI" with no error; any other rc sets not connected, the error to `ErrorMessage(rc)` and the status to "❌ " + that message; nothing else changes |
| `Session.DashboardState.OnDisconnect` | dashboard_streetlight.py:78-82 | not connected, status "❌ TERPUTUS"; log, last row, error and client untouched |
| `Session.DashboardState.OnMessage` | dashboard_streetlight.py:84-149 | a payload that does not decode changes nothing; a decoded row becomes `last_data` and the log becomes `BoundedAppend(old log, row)`; connection fields untouched; the invariant is kept |
| `Session.DashboardState.Record` | dashboard_streetlight.py:139-144 | a decoded row becomes `last_data` and the log becomes `BoundedAppend(old log, row)`; connection fields untouched; the invariant is kept |
| `Session.BoundedAppendKeepsRows` | dashboard_streetlight.py:139-144 | appending a decoded row to a log of decoded rows leaves only decoded rows, with the new row last, so `last_data` stays the newest row |
| `Session.DashboardState.Connect` | dashboard_streetlight.py:152-179 | a failed probe or a raising client records status and error and returns false; a connected client is stored with its attempt time and returns true; the connected flag, log and last row are untouched |
| `Session.DashboardState.Disconnect` | dashboard_streetlight.py:181-190 | not connected, status "❌ TIDAK TERKONEKSI", no client; log and last row untouched |
| `Session.DashboardState.Reset` | dashboard_streetlight.py:260-262 | empty log, no last row, everything else untouched |
| `Statistics.CountLampOn` | dashboard_streetlight.py:472 | the number of rows whose lamp label is "MENYALA" never exceeds the number of rows |
| `Statistics.MaxTimestamp` | dashboard_streetlight.py:479 | the result is the timestamp of some row and no row is later |
| `Statistics.Stats` | dashboard_streetlight.py:444-493 | empty log: all figures 0, no timestamp ("N/A"); otherwise the total is the log length; the lamp-on figure is `Percentage(MENYALA count, length)`, within 0..100; averages are over present values only; the latest timestamp bounds every row's |
| `Statistics.Percentage` | dashboard_streetlight.py:471-473 | the lamp-on figure lies within 0..100, and the figure × row count = 100 × lamp-on count |
| `Statistics.SumPresentBounds` | dashboard_streetlight.py:467-468 | a sum of present values within lo..hi lies between lo and hi taken once per present value |
| `Statistics.PresentTimesIsProduct` | dashboard_streetlight.py:467-468 | adding a bound once per present value is multiplying it by the count of present values, the divisor of the average |
| `Statistics.MeanPresent` | dashboard_streetlight.py:467-468 | the mean of a column is 0 when no value is present; `MeanWithin` shows that otherwise it lies within any bounds of the present values, and `MeanSkipsAbsent` that absent values count in neither the sum nor the divisor |
| `Statistics.MeanWithin` | dashboard_streetlight.py:467-468 | an average of present values lies between any lower and upper bound of those values |
| `Statistics.MeanSkipsAbsent` | dashboard_streetlight.py:467 | intensities 10, absent, 30 average to 20: absent values count neither in the sum nor in the divisor |
| `Statistics.LampOnCountsZeroVoltage` | dashboard_streetlight.py:471-473 | on decoded rows, the lamp-on count equals the number of rows whose voltage read exactly 0.0 |
| `Statistics.LitLabel` | dashboard_streetlight.py:472 | the `== "MENYALA"` test picks out exactly the lit lamp state |
| `Statistics.LatestIsMaximum` | dashboard_streetlight.py:478-483 | the latest timestamp is the maximum over the log and belongs to one of its rows |
| `Metrics.IntensityBand` | dashboard_streetlight.py:340-354 | GELAP iff intensity < 30; SEDANG iff 30 ≤ intensity < 70; TERANG iff intensity ≥ 70 |
| `Metrics.BandMonotone` | dashboard_streetlight.py:340-354 | more light never gives a darker band |

## Left out

- Python's `float()` grammar (`nan`, `inf`, exponents, underscores) and `datetime.strptime` with `%Y-%m-%d %H:%M:%S`: both are function parameters of the decoder. The model proves its properties for every such parser.
- `datetime.now()`: the decoder receives it as the parameter `now`.
- Timestamps are points on one integer clock. The calendar fields and the `strftime("%H:%M:%S")` rendering of the latest timestamp are not modelled. The statistics return the timestamp itself, or `None` for "N/A".
- The UTF-8 decoding of the payload with `errors='ignore'` (line 87): the payload is taken as a string.
- The `print` logging and the outer `try`/`except` of `on_message`. Only the `print` at line 88 can raise, when standard output cannot encode the text. The frame is then dropped, which the model does not capture. Nothing in the decoding itself raises.
- `test_broker_connection` (a socket probe), the paho client construction and `client.connect` inside `connect_mqtt`, `client.subscribe` in `on_connect`, `client.disconnect()` in `disconnect_mqtt`, and the `client.loop()` polling at lines 303-307. These are network calls. `Connect` takes their outcome as the parameter `outcome`.
- Session.DashboardState.Connect: stores "" where Python stores `None` as `connection_error`, after a probe that failed without exception text. The page tests that field only for truthiness (line 217), and both values are falsy there.
- `round(.., 1)` in the statistics and floating-point semantics: the averages and the percentage are exact reals. A `real` has no NaN. A `parseNumber` that maps "nan" to `None` reproduces both the UNKNOWN states of lines 118-126 (`nan == 0.0` is false) and pandas' NaN-skipping `mean()`. Infinities (`float("inf")`) have no counterpart.
- The Streamlit UI and presentation: sidebar, banners, metric cards, HTML/CSS, the plotly charts and the gauge (`create_intensity_gauge`), the 200- and 50-row display slices, the CSV export, `broker_test_result`, `time.sleep` and `st.rerun`. They render state and change no modelled field.
- Concurrency: callbacks are sequential method calls, as under `client.loop()` on the page's run.
