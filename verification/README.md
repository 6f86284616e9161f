# BLE sensor logging scripts, modelled in Dafny

The repository is four small Python scripts around an ESP32-C3 sensor board:

- `cilent_timeback.py` and `cilent.py` scan for BLE devices, pick the first one whose name
  contains "ESP32-C3 Sensor Server", connect, subscribe to the measurement characteristic
  and append every notification to `received_data.csv` until 'q' is pressed. The first one
  stamps each notification with a reconstructed time: the time of the first notification
  is the anchor, and a payload holding `n` newlines is stamped `anchor + 10 * n` seconds.
  The second one writes the payload as it is.
- `graph.py` keeps the last 100 numeric readings from a serial port in two lists
  (`x_data`, `y_data`) for a live plot.
- `load_current.py` copies serial lines into a CSV file: a header row first, then one row per
  non-blank line, split at its commas.

The model keeps the logic inside the I/O glue:

| file | module | form |
|---|---|---|
| `text.dfy` | `Text` | the Python string operations used: `count`, `in`, `strip`, `split`/`join` |
| `discovery.dfy` | `Discovery` | the device-selection loop (a `while` loop with `break`), shared by both clients |
| `session.dfy` | `Session` | the command order of `main` as a trace of events |
| `timeback_client.dfy` | `TimebackClient` | the stamping handler as a class holding `start_time` and the log; `main` |
| `plain_client.dfy` | `PlainClient` | the plain handler as a class holding the log; `main` |
| `live_plot.dfy` | `LivePlot` | `x_data`/`y_data` as a class with two sequences, updated by `Update` |
| `serial_logger.dfy` | `SerialLogger` | the read loop as a method building the rows of the file |

How the outside world enters the model:

- The BLE scan result is a `seq<Device>`. A device's name is an `Option`, because the
  scanning library reports a device without a name as `None`. On such a device,
  `"ESP32-C3 Sensor Server" in device.name` raises `TypeError`, and `main` ends before
  connecting. `Selection.NameMissing` models that outcome.
- The wait for 'q' and the notifications arriving meanwhile are one stream of stimuli:
  `Pressed`, `NotPressed` (one keyboard poll each) or `Arrival(now, payload)`. `now` is the
  wall-clock second that `datetime.now()` would give.
- A log file is a `seq<string>`, one element per `write`. Opening in mode "a" keeps
  what was there: the handlers only ever append.
- `strftime` is an uninterpreted `formatTime: int -> string`. `float` is an uninterpreted
  partial `parse: string -> Option<Y>` over an opaque value type `Y`.
- The serial lines of `load_current.py` are a `seq<string>`. `Record` returns the whole
  content written to the file. Because the file is opened in mode "w", nothing from before
  survives.

What the code does, which the model follows exactly:

- The time offset of a notification is the newline count of that payload alone, times 10
  seconds. It is not a running sample index, so stamps do not accumulate across
  notifications (`TimebackClient.LinesShareAnchor`, `TimebackClient.EqualCountsEqualTimes`).
- There is no per-line handling of decode errors, no draining of in-flight notifications
  before disconnecting, no header in the BLE log file, and no exit code.

## Model

| member | source | states |
|---|---|---|
| `Text.Count` | cilent_timeback.py:26 | `payload.count("\n")` is at most the length, is 0 exactly when the character is absent, and equals the length exactly when every character is that one |
| `Text.CountAppend` | cilent_timeback.py:26 | counting a concatenation adds the counts of the parts |
| `Text.Contains` | cilent_timeback.py:48 | Python's `in` on strings: the name contains the target text at some position |
| `Text.Strip` | load_current.py:19 | `strip()` never returns more than its input |
| `Text.StripIsCut` | load_current.py:19 | what `strip()` keeps is a contiguous piece of the input, starting where the leading whitespace ends, with only whitespace after it |
| `Text.StripShape` | load_current.py:19 | `strip()` removes exactly a whitespace prefix and a whitespace suffix: the result is a slice of the input, everything cut off is whitespace, no whitespace is left at either end, and it is empty exactly when the line is all whitespace |
| `Text.Split` | load_current.py:22 | `line.split(",")` always gives at least one field |
| `Text.JoinSplit` | load_current.py:22 | joining `line.split(",")` with "," gives the line back |
| `Text.SplitShape` | load_current.py:22 | `split(",")` gives one more field than the line has commas, and no field contains a comma |
| `Discovery.Scan` | cilent_timeback.py:46-54 | the outcome of the scan loop, by recursion over the devices: the first device with no name fails, the first matching one is chosen, none left means not found |
| `Discovery.SelectPeripheral` | cilent_timeback.py:43-50 | the scan loop with its `break` returns exactly the selection `Scan` defines |
| `Discovery.FirstMatchChosen` | cilent.py:24-28 | a matching device whose predecessors were all named and did not match is the one chosen |
| `Discovery.ChosenIsFirstMatch` | cilent_timeback.py:46-50 | a chosen address is that of a matching device whose predecessors were all named and did not match |
| `Discovery.NotFoundIffNoMatch` | cilent_timeback.py:52-54 | nothing is chosen exactly when every device was named and none matched |
| `Discovery.NameMissingIffNamelessReached` | cilent.py:24-26 | the loop fails with `TypeError` exactly when it reaches a nameless device before any match |
| `Discovery.LaterDevicesIgnored` | cilent_timeback.py:46-50 | devices after the first match never change the choice |
| `Session.StopIndex` | cilent_timeback.py:70-73 | the wait ends at the first poll that sees 'q'; no earlier poll saw it |
| `Session.NoDeviceNoConnection` | cilent.py:30-32 | without a chosen device the run is only the scan: no connect, no subscription, no notification |
| `Session.SubscriptionBracketsWait` | cilent_timeback.py:57-77 | with a chosen device: connect, list services, `start_notify`; then nothing but polls and notifications, and all of them; then `stop_notify`, right after the only poll that saw 'q'; disconnect last. So the run connects once and disconnects once, with no reconnection in between |
| `Session.SubscribeOnce` | cilent.py:43-55 | with a chosen device, `start_notify` and `stop_notify` each occur exactly once in the run |
| `Session.Trace` | cilent_timeback.py:40-77 | a run always starts with the scan, and goes on past it exactly when a device was chosen |
| `Session.Delivered` | cilent_timeback.py:65-77 | the notifications the handler receives: at most one per stimulus, and none without a chosen device |
| `Session.TraceShowsDelivered` | cilent_timeback.py:65-77 | the notifications shown in the trace are exactly those handed to the handler, in order |
| `TimebackClient.Stamp` | cilent_timeback.py:26-29 | a stamp is never before the anchor; it equals the anchor exactly when the payload has no newline; it lies a whole number of 10-second intervals after the anchor |
| `TimebackClient.Line` | cilent_timeback.py:32-38 | the text written per notification: the formatted stamp, a comma, the payload and a newline |
| `TimebackClient.LineReadBack` | cilent_timeback.py:32-38 | split at ',', a logged line gives the formatted time as its first field, and its remaining fields rejoined give the payload and its newline, provided the time has no comma. This is not a CSV read: the later newline-separated samples of a batched payload carry no time in the log |
| `TimebackClient.Anchor` | cilent_timeback.py:22-23 | a set `start_time` is never replaced; it is set as soon as one notification has come, to that notification's arrival time |
| `TimebackClient.Lines` | cilent_timeback.py:37-38 | one line is appended per notification |
| `TimebackClient.StampOfBatch` | cilent_timeback.py:26-29 | stamping a payload as a whole moves the stamp of its first part on by 10 s per newline in the rest |
| `TimebackClient.LinesShareAnchor` | cilent_timeback.py:22-38 | every line a run appends is `formatTime(anchor + 10 * newlines of its own payload) + "," + payload + "\n"`, with one anchor for the whole run |
| `TimebackClient.EqualCountsEqualTimes` | cilent_timeback.py:26-29 | within a run, the lines of payloads with equally many newlines start with the same time text, and equal payloads append equal lines, however far apart they arrive |
| `TimebackClient.TimestampLog.constructor` | cilent_timeback.py:15 | `start_time` starts unset; the log holds what the file already held |
| `TimebackClient.TimestampLog.Handle` | cilent_timeback.py:17-38 | `start_time` is set to now only if unset and otherwise kept; exactly one stamped line is appended after the unchanged earlier content |
| `TimebackClient.Listen` | cilent_timeback.py:65-74 | the wait loop emits one event per stimulus up to 'q'; it hands the arrivals before 'q' to the handler, which leaves the anchor and the log as `Anchor` and `Lines` describe |
| `TimebackClient.Run` | cilent_timeback.py:40-77 | the selection is `Scan`; the trace is `Trace`; the anchor and the appended lines follow from the notifications delivered |
| `PlainClient.Appended` | cilent.py:15-16 | one write per payload |
| `PlainClient.PlainLog.constructor` | cilent.py:15 | the log holds what the file already held; mode "a" keeps it |
| `PlainClient.ReadBack` | cilent.py:15-16 | if no payload contains a newline, splitting the logged text at newlines gives the payloads back, then the empty text after the last newline |
| `PlainClient.PlainLog.Handle` | cilent.py:10-16 | with no state besides the log, exactly `payload + "\n"` is appended after the unchanged earlier content |
| `PlainClient.Listen` | cilent.py:43-52 | the wait loop emits one event per stimulus up to 'q' and logs each arrival before 'q', in order |
| `PlainClient.Run` | cilent.py:18-55 | the selection is `Scan`; the trace is `Trace`; the log gains exactly the delivered payloads, each followed by a newline |
| `LivePlot.Window` | graph.py:26-28 | the newest 100 readings: all of them while there are at most 100, else exactly 100 |
| `LivePlot.Trim` | graph.py:26-28 | `pop(0)` on a list longer than 100 |
| `LivePlot.Ramp` | graph.py:22 | the k-th reading is given x = `len(x_data)`, one x value per reading |
| `LivePlot.WindowStep` | graph.py:22-28 | one append plus at most one `pop(0)` keeps exactly the newest 100 readings, in order |
| `LivePlot.RampStep` | graph.py:22 | the x value appended equals the number of points before the append, and the x list stays the window of the handed-out values |
| `LivePlot.XShape` | graph.py:22-28 | there are at most 100 x values; they are non-decreasing and between 0 and 100; they count 0, 1, 2, ... until the first overflow; after that the newest point always has x = 100 |
| `LivePlot.Plot.constructor` | graph.py:13-14 | both lists start empty |
| `LivePlot.Plot.Update` | graph.py:17-38 | with no input or a non-numeric line nothing changes. A numeric reading appends `len(x_data)` and the value, then drops index 0 of both lists if they exceed 100. The lists keep equal length, at most 100, holding the newest readings |
| `SerialLogger.RowOf` | load_current.py:19-23 | one line read adds at most one row |
| `SerialLogger.DataRows` | load_current.py:18-23 | the data rows of the lines read: at most one per line |
| `SerialLogger.Record` | load_current.py:11-23 | the file holds the header row first, then the data rows of the lines in reading order |
| `SerialLogger.RowPerKeptLine` | load_current.py:19-23 | there is one row per non-blank stripped line, in order. Each row is that line split at "," and joins back to it, with one more field than the line has commas |
| `SerialLogger.RowsInReadingOrder` | load_current.py:18-23 | reading more lines only adds rows after the ones already written |
| `SerialLogger.BlankLinesSkipped` | load_current.py:19-20 | an all-whitespace line adds no row; any other line adds exactly its split row |

## Left out

- BLE transport: scanning, connecting, `get_services`, and what `start_notify` and `stop_notify` do inside. These are library calls. The model records them only as events in a trace, and the services result is not used.
- Connection failures: bleak's exceptions from connecting, subscribing, or losing the link mid-session are not modelled. Those calls are assumed to succeed.
- Timing: keyboard polling, `asyncio.sleep` and asyncio scheduling are not modelled. The model sees an interleaved stream of poll results and arrivals. A notification that arrives while `start_notify` is being awaited is handled before the first poll, so it is modelled as an arrival before the first poll. The model drops notifications that arrive while `stop_notify` is being awaited, although the subscription is still live then and the program may still log them.
- File I/O: opening and writing the log files is assumed to succeed. An `OSError` from `open` or `write` is not modelled, in `cilent_timeback.py` (lines 37-38), `cilent.py` (lines 15-16) or `load_current.py` (lines 12-14 and 23). This hides one case in particular. `cilent_timeback.py` sets `start_time` (line 23) before it opens the file. So a failed open or write would leave the anchor set with no line written, while `TimebackClient.TimestampLog.Handle` always appends its line.
- TimebackClient.Run: covers runs in which 'q' is eventually pressed (`Ends`). Without that, the source's wait never ends.
- PlainClient.Run: covers runs in which 'q' is eventually pressed (`Ends`), for the same reason.
- TimebackClient.Listen: requires a 'q' press among the stimuli, for the same reason.
- PlainClient.Listen: requires a 'q' press among the stimuli, for the same reason.
- Clock and formatting: `datetime.now()` is a parameter, in whole seconds, and `strftime` is an uninterpreted function, so sub-second precision and date formatting are not modelled.
- UTF-8 decoding: payloads and serial lines are already strings. The `UnicodeDecodeError` that undecodable bytes would raise is not modelled.
- `float()`: it is an abstract partial function, and the y values are of an opaque type.
- Plotting: the matplotlib calls in `graph.py` (lines 31-36 and 40-45) are not modelled.
- Serial port: `serial.Serial`, `in_waiting` and `readline` become a flag and a line. `load_current.py`'s lines are a finite sequence, and the `KeyboardInterrupt` that ends the loop is the end of that sequence.
- CSV: quoting and escaping by `csv.writer` are not modelled. A row is kept as its list of fields.
- Unused: `print` output is not modelled. Nor are the constants `SERVICE_UUID`, `TOTAL_READINGS`, the port names and the baud rates, which the modelled logic does not use.
