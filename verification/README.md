# Plant monitor: sensor ingestion and dryness alerting, in Dafny

This project models the core of a small Flask plant monitor (`app.py`). The
app keeps an in-memory table of plants. Each plant has a name, a soil type,
the latest sensor reading, a watering log, and the time of its last dryness
alert. Readings of `(soilMoisture, temperature, humidity)` arrive from two
sources:

- a push endpoint, `/update_sensor`, which converts the JSON fields and answers 400 if any field fails to convert;
- a serial reader, which decodes comma-separated text lines and skips any line that does not decode.

Both sources then do the same thing:

1. Write the one reading into every plant.
2. Walk the plants in table order.
3. Notify each plant whose moisture is at or below its soil's cutoff (Sandy 10, Clay 30, Loamy 25, anything else 25), provided strictly more than 3600 seconds have passed since its last alert.
4. Set the alert time of each notified plant to the current clock reading.

Add, delete and water are direct table operations.

The model is functional. A `Store` is a map from plant id to `Plant`, plus the
id counter. Each handler is a pure function from the old store to the new
store plus a status code. `ApplySample` returns the new store and the
notifications it emitted, in order. The notifier (an e-mail call whose
failures are swallowed) is modelled as that emitted sequence. The clock is a
parameter `now` in seconds, and watering stamps are values the caller
supplies.

Modules, following the parts of the program:

- `Wrappers`: the `Option` type.
- `Text`: Python's `str.strip()` and `str.split(",")`.
- `Numbers`: Python's `int(str)` and `float(str)`, and `str(n)`.
- `Payload`: JSON values, plus `int(x)` / `float(x)` on them.
- `Thresholds`: `SOIL_DRY_LEVELS` and its default.
- `Plants`: the table, and add / delete / water.
- `Ingestion`: fanning a sample out to all plants, and the alert loop.
- `Sources`: the push handler, serial line decoding, and the serial read loop.
- `Lifecycle`: sequences of events, id freshness, alert-time monotonicity, and the alerting scenario.

Table order: Python dicts iterate in insertion order. Ids come from a counter
that only grows, and an id is never inserted twice. So insertion order is
ascending id order. The model iterates plants by ascending id, relying on the
table invariant `Valid` (every id in use is below the counter).
`Plants.Initial` establishes that invariant and every handler preserves it.

On these points the model follows app.py:

- The cooldown test is a strict `now - lastAlert > 3600`. An elapsed time of exactly 3600 s does not re-alert.
- The watering log is a dict keyed by a timestamp with one-second resolution. Two waterings in the same second leave one entry, so the log's size is not the number of waterings.
- A plant's soil can be any string. Names outside the table get the default cutoff of 25.

Two details of CPython's `int()` and `float()` on strings matter for the push endpoint:

- They skip surrounding whitespace, but not the four information separators U+001C..U+001F. `str.isspace()` holds of those, so `strip()` removes them. The serial path strips every field with `strip()` first, so there they are harmless. A pushed string that starts or ends with one is refused.
- `int()` refuses a decimal string of more than 4300 digits (`sys.int_info.default_max_str_digits`, the default since CPython 3.11 and the 2022 security releases of 3.7-3.10). Underscores and the sign do not count toward the limit, leading zeros do. `float()` has no such limit.

## Model

| member | source | states |
|---|---|---|
| `Thresholds.DryThreshold` | app.py:29 | Cutoff is 10 for "Sandy", 30 for "Clay", 25 for "Loamy" and 25 for every other soil string, never an error; always within 10..30 |
| `Plants.Initial` | app.py:34-44 | The starting table holds only id 1 with the counter at 2, and satisfies the table invariant |
| `Plants.AddPlant` | app.py:331-346 | New plant stored under the old counter with the given name and soil, zero reading, no last watering, empty log, alert time 0; counter rises by exactly 1; every other plant unchanged; invariant kept and size grows by one |
| `Plants.DeletePlant` | app.py:348-351 | Keys become old keys minus the id; remaining plants unchanged; an absent id leaves the store identical; counter never moves back |
| `Plants.WaterPlant` | app.py:353-361 | Absent id: 404 and no change. Present id: 200, `lastWatered` becomes the stamp, the log gains the stamp (size +1 only if it was new), other log entries, other fields and other plants unchanged |
| `Plants.WaterSameSecondCollapses` | app.py:358-360 | Watering the same plant twice within one second leaves exactly what one watering leaves |
| `Ingestion.Evaluated` | app.py:383-390 | Per-plant reference: the plant takes the sample, keeps name, soil, watering data, and its alert time becomes `now` exactly when dry and out of cooldown |
| `Ingestion.IdsBelow` | app.py:307 | The ids in use below a bound, strictly ascending, each listed exactly once (the table's iteration order) |
| `Ingestion.AlertLoopPlants` | app.py:383-390 | The sequential alert loop leaves each listed plant with alert time `now` iff it should alert, otherwise untouched, and leaves unlisted plants untouched |
| `Ingestion.AlertLoopSent` | app.py:307-314 | The loop notifies exactly the listed plants that should alert, each notification carrying that plant's name, soil and current reading |
| `Ingestion.AlertLoopOrder` | app.py:307-314 | Notifications leave in the order the plants are walked (ascending id, the table's insertion order), none before the first id walked |
| `Ingestion.ApplySample` | app.py:377-390 | Every plant ends as its own independent evaluation; ids and counter unchanged; a notification goes out iff the plant was dry (moisture <= cutoff) and more than 3600 s past its last alert; notifications are in table order, carry the new sample, and each notified plant's alert time is `now` |
| `Ingestion.SameReadingEverywhere` | app.py:379-380 | After a sample every plant holds the identical reading, whatever its soil |
| `Ingestion.AlertBoundaries` | app.py:387 | Moisture equal to the cutoff is dry, one above is not; exactly 3600 s elapsed does not alert, 3600.5 s does |
| `Ingestion.FirstDryReadingAlerts` | app.py:342 | A plant with alert time 0 alerts on its first dry reading (clock past 3600 s) and its alert time becomes `now` |
| `Ingestion.LastAlertNeverDecreases` | app.py:387-390 | A sample never moves a plant's alert time backwards |
| `Ingestion.AlertsIndependent` | app.py:383-390 | A plant's resulting record and whether it is notified depend only on that plant's own record |
| `Ingestion.CooldownBetweenSamples` | app.py:387-390 | After a plant alerts at t1, a later dry sample at t2 alerts it again iff t2 - t1 > 3600 |
| `Payload.Truncate` | app.py:371 | `int()` of a finite float truncates toward zero: the result has the input's sign and lies less than 1 from it, toward 0 |
| `Payload.ToInt` | app.py:371 | `int(v)`: a bool is 0 or 1, an int passes through, a string goes through the int-string grammar, a finite float is truncated toward zero, and NaN, infinities, null, lists and objects fail |
| `Payload.FloatToIntTruncates` | app.py:371 | `int()` of a finite float moves it toward zero by less than one, keeping its sign; of an infinity or NaN it fails |
| `Payload.IntAgreesWithFloat` | app.py:371-373 | For any JSON value other than a float, whatever `int()` accepts `float()` accepts too, with the same value |
| `Sources.PayloadRoundTrip` | app.py:370-377 | An object holding a reading's moisture as a JSON int and its temperature and humidity as JSON floats converts back to exactly that reading, whatever other keys it has |
| `Sources.MissingFieldRejected` | app.py:370-375 | A body that is not an object, or lacks any of the three keys, gets 400, leaves the table unchanged and sends nothing |
| `Sources.UnreadableMoistureRejected` | app.py:371-375 | A moisture value `int()` refuses gets 400 with the table unchanged and nothing sent, whatever the other fields hold |
| `Sources.WetWordRejected` | app.py:370-375 | The body `{"soilMoisture": "wet"}` gets 400 with the table unchanged and nothing sent |
| `Sources.SeparatorLedMoistureRejected` | app.py:371-375 | A pushed moisture string that starts with one of U+001C..U+001F gets 400 with no change |
| `Sources.UpdateSensor` | app.py:366-392 | Unconvertible payload: 400, store identical, nothing sent. Otherwise: 200, the sample echoed, and the store and notifications are those of applying the sample |
| `Sources.Fields` | app.py:285 | One more field than the stripped line has commas; every field is comma-free and has no whitespace at either end |
| `Sources.ParseLine` | app.py:281-294 | A decoded line was non-blank after stripping and had exactly three fields |
| `Sources.ParseLineDecodes` | app.py:281-294 | A line decodes iff non-blank, exactly three fields, field 1 is an int and fields 2-3 are floats; the sample holds those values in that order |
| `Sources.WrongFieldCountSkipped` | app.py:285-287 | A line with other than two commas after stripping is skipped |
| `Sources.BlankLineSkipped` | app.py:281-283 | Every empty or all-whitespace line is skipped |
| `Sources.SerialStep` | app.py:281-314 | A line that does not decode leaves the store identical and sends nothing; one that decodes is applied like a pushed sample |
| `Sources.SerialRun` | app.py:280-314 | Reading a sequence of lines keeps the invariant, the counter and the set of plants |
| `Sources.GarbledLinesIgnored` | app.py:282-294 | A run of lines gives the same store and notifications as the run of only its decodable lines: bad lines have no effect and reading continues |
| `Sources.LineRoundTrip` | app.py:281-296 | For whole-number temperature and humidity, the line `str(m),str(t),str(h)` followed by CR LF decodes to the reading (m, t, h) when m has at most 4300 digits, and is skipped otherwise |
| `Sources.StripEachStripped` | app.py:285 | Stripping each already-stripped piece changes nothing |
| `Numbers.ParseIntCanonical` | app.py:290 | Whatever `int(s)` accepts is the number `str` writes back: its digits, with underscores and leading zeros removed, are the digits of the result, and a nonzero result carries the sign read |
| `Numbers.IntRoundTrip` | app.py:290 | `int(str(n)) == n` for every integer n of at most 4300 digits; longer texts are refused |
| `Numbers.IntTextIsFloat` | app.py:290-292 | Every text `int()` accepts, `float()` accepts too, with the same value |
| `Numbers.SeparatorLedRejected` | app.py:290-292 | A text starting with one of U+001C..U+001F is refused by both `int()` and `float()`, although `strip()` removes that character |
| `Numbers.FloatOfIntText` | app.py:291-292 | In the model's exact arithmetic, `float(str(n)) == n` for every integer n |
| `Numbers.NatTextValue` | app.py:290 | The digits written for a natural number form a digit run whose value is that number |
| `Numbers.FloatBodyOfNumeral` | app.py:291-292 | A float body starting with a digit is read as a decimal number, not as inf/nan |
| `Text.Strip` | app.py:281 | `strip()` output starts and ends with non-whitespace, or is empty, and is no longer than its input |
| `Text.StripTrimmed` | app.py:281 | A string that neither starts nor ends with whitespace is left unchanged by `strip()` |
| `Text.StripKeepsMiddle` | app.py:281 | `strip()` output is the contiguous middle of its input between the first and the last non-whitespace character, everything dropped at either end is whitespace, and when the scans meet the input was all whitespace and strips to the empty string |
| `Text.StripAllSpace` | app.py:281 | A string made only of whitespace strips to the empty string |
| `Text.StripIdempotent` | app.py:285 | Stripping twice equals stripping once, so the per-part strip after the line strip is harmless |
| `Text.Split` | app.py:285 | `split(",")` yields one more piece than there are commas, none containing a comma |
| `Text.JoinSplit` | app.py:285 | Joining the pieces of `split(sep)` with `sep` gives back the original string |
| `Text.SplitJoin` | app.py:285 | Splitting comma-free pieces joined by commas gives back the pieces |
| `Lifecycle.Step` | app.py:331-392 | Every handler keeps the invariant, never lowers the counter, only introduces ids at or above the old counter, and never moves a surviving plant's alert time back; only sample handlers notify |
| `Lifecycle.IdsNeverReused` | app.py:345-350 | An unused id below the counter (e.g. a deleted plant's) is absent after any sequence of events |
| `Lifecycle.LastAlertMonotone` | app.py:313-314 | Over any sequence of events, a surviving plant's alert time never decreases |
| `Lifecycle.EndToEndScenario` | app.py:383-390 | Loamy A and Sandy B at alert time 0: moisture 8 alerts both; the same reading again alerts neither; moisture 50 after 3601 s alerts neither but reaches both |
| `Lifecycle.ScenarioFirstReading` | app.py:383-390 | Moisture 8 alerts both plants, notifications carry the new reading, both alert times become `now` |

## Left out

- Flask routing, request decoding, and the `/` and `/plants` routes (app.py:323-329) are transport. Handlers are store transitions plus a status code.
- The embedded HTML/CSS/JS page (app.py:49-233) is presentation only, including its client-side status colouring.
- The EmailJS request (app.py:238-262) is an outbound network call. A notification is an emitted `Notification` value; its wall-clock `time` text is omitted. Every exception is swallowed there, so the delivery outcome cannot affect the state. The model has no delivery input, and a notified plant's alert time is set regardless.
- Serial port handling (app.py:267-280, 316-318) is I/O: opening COM4, the settle and retry sleeps, reconnecting, and byte decoding with `errors="ignore"`. Lines reach the model as strings. The `last_data` change print (app.py:302-304) is logging only.
- The daemon thread and its race with request handlers (app.py:400) are concurrency. The model applies events one at a time.
- Floating point: a float is an exact real, an infinity, or NaN. The model has no binary rounding, no overflow of large literals to infinity, no signed zero, and no OverflowError from `float()` of huge ints. Temperature and humidity are only carried along.
- The source's zero reading uses int zeros for temperature and humidity. The model uses the float 0.0, which differs only in JSON rendering.
- `time.time()` is read once per plant inside the alert loop. The model uses one `now` per sample.
- Watering stamps (`strftime` at second resolution) are opaque strings supplied by the caller.
- Numeric text: Python also accepts non-ASCII Unicode decimal digits in `int()`/`float()`; the model accepts ASCII digits only.
- `add_plant` takes `name` and `soil` as strings. A body missing those keys (a 500 with no change) and non-string JSON values are not modelled. A list or object soil would make the soil lookup raise TypeError (app.py:308, 384). `update_sensor` would then fail with a 500 after every plant's reading was already overwritten and before the remaining plants were checked. The serial reader would drop into its reconnect path (app.py:316-318) on every sample.
- One `new_data` dict is shared by all plants (aliasing). The model uses value semantics, which is observably the same here.
- `Numbers.ParseFloat`: its own contract only says a parsed text was non-blank. The grammar is stated by its definition together with `Numbers.FloatOfIntText`, `Numbers.IntTextIsFloat` and `Numbers.FloatBodyOfNumeral`; there is no general decimal round-trip lemma.
- `Sources.SerialRun`: its contract covers the invariant and the set of plants. Its effect on readings and alerts is stated per line by `Sources.SerialStep` and `Ingestion.ApplySample`, and `Sources.GarbledLinesIgnored` relates whole runs.
