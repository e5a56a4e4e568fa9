# Management interface of a Cacophony Project device, in Dafny

The Cacophony Project's management interface runs on a Raspberry Pi field
device: a daemon (`managementd`) serves web pages over the device's Wi-Fi
hotspot and a small HTTP API, and the pages' scripts talk back to it. This
project models the parts of it that carry logic and proves what they do.

- **The live thermal-camera view.** The daemon encodes each frame as a
  little-endian u16 header length, the JSON header and the pixel samples
  (`FrameCodec`). The browser's `parseFrame` decodes it and counts skipped
  frames (`FrameCodec`). The browser's `CameraConnection` keeps a websocket
  with a register/heartbeat handshake, reconnects after a five-second
  countdown, stops after a cap on received messages and paints frames into
  an RGBA buffer (`CameraClient`). The daemon keeps a registry of viewer
  sockets, refreshed by heartbeats and culled after 7 s of silence, behind
  a basic-auth gate (`SocketRegistry`). The older snapshot-polling camera
  page is `SnapshotPage`.
- **The API's text handling** (`ManagementApi`, `WifiScan`, `WpaConfig`):
  camel-case section names, the last battery reading, the
  `wpa_cli list_networks` table, the device type, the `iwlist` scan reader
  and adding or removing a network in the wpa_supplicant configuration.
- **The hotspot.** The API's helpers are `HotspotApi`, and the daemon's set-up
  is `HotspotDaemon`. Both run over a `HostSystem.Host` that holds the
  device's files and the `systemctl` commands run. They rewrite the DHCP
  client configuration only when it changed and read `iwgetid`, `iw` and
  `wpa_cli` output. The daemon refuses to start the hotspot while a network
  is up.
- **The web pages' handlers** (`Helpers`, `Location`, `Audiobait`,
  `NetworkInterface`): form parsing, page messages, the location validator
  and store, the audio bait log and schedule, and the network interface
  report.
- **The page scripts' state machines** (`SignalMonitor`, `AudioTestPanel`,
  `AudioTestPanelLegacy`, `ModemPage`, `ConfigPage`): the signal bars and
  their back-off, the two versions of the audio test-recording poller,
  the modem signal CSV log and the duration formatter.
- **The device side of the Cacophony API client library** (`GoApiError`,
  `GoApiConfig`, `GoApiClient`): error permanence, configuration
  validation, the lock-guarded private configuration, and registering or
  authenticating the device.

Code that changes state step by step is modelled as classes and methods
whose `ensures` give the whole new state; loops carry invariants tying them
to a specification function, and lemmas prove what the source promises
about those functions. Command output, file contents, HTTP responses,
clocks and library parsers (JSON, YAML, `strconv`, time formats, regular
expressions) are parameters or inputs. Go panics (an index out of range,
a write to a nil map) are the `Panics` outcome of `Wrappers.Panicking`.
`Wrappers` and `Text` (Go's `strings` and `bufio` line splitting on
`seq<char>`) are shared helpers.

Where the project's design description and the code disagree, the model
follows the code:
- The reconnect countdown restarts on every close, so there is no overall
  limit on attempts.
- The skipped-frame count adds the whole frame-number difference, which is
  negative when the number goes back.
- `parseFrame` does not check the pixel slice's length.
- `processFrame` does not guard against a frame whose minimum equals its
  maximum.

## Model

| member | source | states |
|---|---|---|
| FrameCodec.U16LE | cmd/managementd/main.go:507 | two bytes, low byte first, whose little-endian value is the sample |
| FrameCodec.EncodeFrame | cmd/managementd/main.go:498-512 | the buffer is the header length mod 65536 as a little-endian u16, the whole JSON header, then every row of samples little-endian, rows in order; its length is 2 + header + 2 per sample |
| FrameCodec.SamplesOfEncode | cmd/managementd/main.go:509-511 | reading the little-endian bytes of the samples back gives the same samples |
| FrameCodec.EncodeSamplesAppend | cmd/managementd/main.go:509-511 | writing two runs of samples one after the other gives the concatenation of their encodings |
| FrameCodec.FlattenSnoc | cmd/managementd/main.go:509-511 | the samples of rows plus one more row are the earlier samples followed by that row |
| FrameCodec.HeaderLength | static/js/camera.ts:229 | the header length read from the first two bytes is below 65536 |
| FrameCodec.Slice | static/js/camera.ts:254-256 | `ArrayBuffer.slice` gives the bytes between the two positions `SliceIndex` finds, empty when the end lies before the start; the plain subsequence whenever the bounds lie inside the buffer, and never longer than the buffer |
| FrameCodec.SliceIndex | static/js/camera.ts:254-256 | a slice index inside the buffer is kept, a negative one counts from the end of the buffer, and the position is clamped to [0, length] |
| FrameCodec.NegativeEndFromBack | static/js/camera.ts:254-256 | with 101 bytes, `slice(10, -2)` is the 89 bytes from 10 to 99 |
| FrameCodec.ParseFrame | static/js/camera.ts:224-265 | a one-byte buffer throws, and only it; the frame is dropped exactly when the buffer is empty, the header is malformed or has no camera, or the pixel slice [2+L, 2+L+2·ResX·ResY) has an odd length; a parsed frame's header is the decoding of bytes [2, 2+L), its samples are the little-endian u16 values of that pixel slice, and `prevFrameNum` becomes its frame count |
| FrameCodec.RoundTrip | cmd/managementd/main.go:505-511 | for a header below 65536 bytes and ResX*ResY equal to the number of samples, the client's layout reads back the header length, the header bytes and exactly the samples sent |
| FrameCodec.ParseEncoded | static/js/camera.ts:224-265 | `parseFrame` of an encoded frame whose header decodes completely returns that header with all the samples, records its frame number and updates the skipped count |
| FrameCodec.LongHeaderTruncated | cmd/managementd/main.go:505-508 | a header of 65536 bytes or more gets a wrapped length prefix, so the client reads only a strict prefix of the header |
| FrameCodec.NegativeSizeDropped | static/js/camera.ts:250-256 | a header whose ResX*ResY is negative makes the pixel slice end count from the back; with 101 bytes, an 8-byte header and ResX*ResY = -6 the slice has odd length, so the frame is dropped after its number is recorded |
| FrameCodec.MalformedKeepsState | static/js/camera.ts:258-264 | a header that does not parse drops the frame and leaves `prevFrameNum` and the skipped count alone |
| FrameCodec.PrevFrameAdvances | static/js/camera.ts:242-250 | once `Telemetry` is read, `prevFrameNum` becomes its frame count and the skipped count is updated, even when the frame is then dropped for a missing `Camera` |
| FrameCodec.SkippedClosedForm | static/js/camera.ts:242-248 | over a run of frames the skipped count is last - first minus the number of consecutive pairs: each gap adds its whole difference, negative for a backward step |
| FrameCodec.SkippedExamples | static/js/camera.ts:242-248 | frames 5,6,8,9 give 2, frames 5..8 give 0, frames 5,3 give -2 |
| CameraClient.CameraConnection.constructor | static/js/camera.ts:68-80 | the limit is `MAX_SAFE_INTEGER` with `timeout=off` and 200 otherwise; a first socket is opened and Connecting is reported; no timer runs |
| CameraClient.CameraConnection.Connect | static/js/camera.ts:193-202 | clears `closing`, opens a new socket and reports Connecting, changing nothing else |
| CameraClient.CameraConnection.Close | static/js/camera.ts:149-155 | stops the current heartbeat, sets `closing` and asks the socket, if there is one, to close |
| CameraClient.CameraConnection.RetryConnection | static/js/camera.ts:156-165 | does nothing while closing; otherwise schedules the next one-second step while steps remain, and connects when none remain |
| CameraClient.CameraConnection.Register | static/js/camera.ts:166-192 | no socket: nothing; a socket not yet open: registration is retried after 100 ms; an open socket: exactly one Register message with the page's UUID, Connected reported and a 5000 ms heartbeat installed |
| CameraClient.CameraConnection.OnOpen | static/js/camera.ts:202 | the open event runs `register()`: with no socket nothing changes; with a socket not yet open another try is scheduled in 100 ms; with an open one a single Register message is sent, Connected is reported and a new heartbeat timer becomes the only new one |
| CameraClient.CameraConnection.OnClose | static/js/camera.ts:203-210 | empties the socket slot, reports Disconnected, stops the heartbeat and, unless closing, starts the five-step countdown |
| CameraClient.CameraConnection.StopSnapshots | static/js/camera.ts:82-90 | closes the connection and shows the stop message |
| CameraClient.CameraConnection.OnMessage | static/js/camera.ts:211-222 | a Blob is decoded by `parseFrame` and its result handed on, a dropped frame as none; other messages hand on nothing; each message adds one to the count and viewing stops once the count passes the limit, except a one-byte Blob, whose header read throws before either happens |
| CameraClient.CameraConnection.FireTimeout | static/js/camera.ts:161 | the fired timeout leaves the queue; a countdown step does nothing while closing, queues the next step while steps remain, and otherwise reconnects, leaving the heartbeat alone; a registration retry runs `register()`: nothing with no socket, another retry with a socket not yet open, and with an open one a Register message, the Connected report and a new heartbeat; the socket and `closing` change only on a reconnect |
| CameraClient.CameraConnection.FireHeartbeat | static/js/camera.ts:179-187 | a running heartbeat sends one Heartbeat message with the page's UUID when there is a socket |
| CameraClient.CameraConnection.RestartCameraViewing | static/js/camera.ts:52-66 | hides the stop panel, resets the count to 0 and reconnects the existing connection, keeping the pending timeouts and the heartbeat as they were |
| CameraClient.ReconnectsAfterFiveSteps | static/js/camera.ts:156-165 | after an unexpected close the connection opens a second socket exactly when the fifth one-second step fires |
| CameraClient.CloseCancelsRetry | static/js/camera.ts:149-165 | after `close()` a pending step fires without reconnecting, and no timer is left |
| CameraClient.MessageCapStopsAt201 | static/js/camera.ts:217-221 | with the default limit viewing stops at message 201, and a restart sets the count back to 0 |
| CameraClient.SeqMin | static/js/camera.ts:107 | the least sample of the frame |
| CameraClient.SeqMax | static/js/camera.ts:106 | the greatest sample of the frame |
| CameraClient.FrameBounds | static/js/camera.ts:106-107 | no bounds exactly for an empty frame; otherwise the least and the greatest sample |
| CameraClient.SeqBoundsUnique | static/js/camera.ts:106-107 | bounds that hold every sample and are reached are the minimum and maximum |
| CameraClient.PaintUpToPixel | static/js/camera.ts:110-118 | after n pixels, each byte of an earlier pixel holds its channel value |
| CameraClient.PaintUpToRest | static/js/camera.ts:110-118 | after n pixels, every byte from 4n on is untouched |
| CameraClient.PaintedPixel | static/js/camera.ts:110-118 | pixel p of the frame lands in bytes 4p to 4p+3: grey in the first three and 255 in the fourth |
| CameraClient.PaintedRest | static/js/camera.ts:110-118 | bytes past four per sample keep their value |
| CameraClient.ProcessFrame | static/js/camera.ts:94-123 | the image buffer becomes the painted frame, computed against the frame's own minimum and maximum |
| CameraClient.WritePixel | static/js/camera.ts:112-116 | one loop step performs the four stores of its pixel |
| SnapshotPage.SnapshotLoop.constructor | static/js/camera.js:2-11 | the cap is `MAX_SAFE_INTEGER` with `timeout=off` and 200 otherwise; the count starts at 0 and one request goes out |
| SnapshotPage.SnapshotLoop.UpdateSnapshotLoop | static/js/camera.js:20-45 | sends one snapshot request and changes nothing else |
| SnapshotPage.SnapshotLoop.StopSnapshots | static/js/camera.js:47-51 | shows the message and the stop panel and hides the image |
| SnapshotPage.SnapshotLoop.OnLoad | static/js/camera.js:24-39 | a 200 refreshes the image and adds one to the count, then schedules the next request iff the count is under the cap (leaving the stop panel, its message and the image as they were) and otherwise stops with the timeout message; any other status stops with an error and schedules nothing; at most one loop keeps running |
| SnapshotPage.SnapshotLoop.OnError | static/js/camera.js:40-43 | a network error stops viewing and schedules nothing |
| SnapshotPage.SnapshotLoop.FireTimer | static/js/camera.js:30 | a scheduled step sends the next request and changes nothing else |
| SnapshotPage.SnapshotLoop.RestartCameraViewing | static/js/camera.js:13-18 | hides the stop panel, shows the image, resets the count to 0 and starts one new loop, keeping the stop message and the scheduled steps |
| SnapshotPage.RunUntilCap | static/js/camera.js:24-34 | with every answer 200, a run shows exactly 200 snapshots and then stops with the timeout message |
| SocketRegistry.Registry.constructor | cmd/managementd/main.go:406-413 | the registry starts empty |
| SocketRegistry.Registry.Register | cmd/managementd/main.go:406-417 | the uuid's entry is inserted or overwritten with a fresh heartbeat time and lock 0, other entries are unchanged; it is the first socket iff the map was empty; "disconnected" is sent iff no camera is connected |
| SocketRegistry.Registry.Heartbeat | cmd/managementd/main.go:452-456 | refreshes the heartbeat time of a registered uuid only; an unknown uuid leaves the map unchanged |
| SocketRegistry.Registry.Receive | cmd/managementd/main.go:397-460 | a Register or Heartbeat message acts as above and any other type leaves the registry alone |
| SocketRegistry.Registry.Cull | cmd/managementd/main.go:531-551 | removes exactly the inactive registrations, keeps every other entry unchanged, and returns the removed uuids |
| SocketRegistry.CulledFrom | cmd/managementd/main.go:531-551 | a map holding exactly the active entries, unchanged, is the culled map |
| SocketRegistry.RegisteredSurvivesCull | cmd/managementd/main.go:386-388 | a registration survives every cull until 7 s have passed since it registered |
| SocketRegistry.HeartbeatExtends | cmd/managementd/main.go:452-456 | a heartbeat keeps a registered viewer for another 7 s; an unknown uuid's heartbeat changes nothing |
| SocketRegistry.InactiveStays | cmd/managementd/main.go:386-388 | an inactive registration stays inactive until it is refreshed |
| SocketRegistry.CullExact | cmd/managementd/main.go:531-551 | culling is idempotent at one instant, a registration is kept iff it is active, and kept entries are unchanged |
| SocketRegistry.EncodeGroup | cmd/managementd/main.go:371 | one base64 group is four characters |
| SocketRegistry.Base64Cons | cmd/managementd/main.go:371 | base64 encodes whole three-octet groups independently of what follows |
| SocketRegistry.Octets | cmd/managementd/main.go:371 | one octet per ASCII character |
| SocketRegistry.FiveGroups | cmd/managementd/main.go:371 | four whole groups and a final one encode group by group |
| SocketRegistry.AdminGroups | cmd/managementd/main.go:371 | the groups of "admin:" encode as "YWRt" and "aW46" |
| SocketRegistry.FeathersGroups | cmd/managementd/main.go:371 | the groups of "feathers" encode as "ZmVh", "dGhl" and "cnM=" |
| SocketRegistry.AdminFeathersOctets | cmd/managementd/main.go:371 | the octets of "admin:feathers" in five groups |
| SocketRegistry.AdminFeathersBase64 | cmd/managementd/main.go:371 | the base64 of "admin:feathers" is "YWRtaW46ZmVhdGhlcnM=" |
| SocketRegistry.CompiledCredential | cmd/managementd/main.go:371-372 | the compiled Authorization value is the Basic credential of admin:feathers, per section 2 of RFC 7617 |
| SocketRegistry.BasicAuth | cmd/managementd/main.go:369-378 | the request is forwarded iff the Authorization header is exactly the Basic credential of admin:feathers; otherwise 403 Forbidden |
| SignalMonitor.BarsFor | static/js/signal.js:47-56 | one class for each of the five bars |
| SignalMonitor.Lights | static/js/signal.js:47-56 | n bar classes |
| SignalMonitor.LightsCount | static/js/signal.js:47-56 | lighting the first k of n bars lights none for k <= 0, all for k >= n, and k otherwise |
| SignalMonitor.BarsForLights | static/js/signal.js:43-56 | a strength lights the lowest bars, as many as it says clamped to 0..5, and NaN lights none |
| SignalMonitor.StreakClosedForm | static/js/signal.js:63-71 | a failure streak keeps the 2000 ms delay for two failures, jumps to 10000 ms at the third and grows by 2000 ms per further failure, without an upper bound |
| SignalMonitor.StreakMonotone | static/js/signal.js:68-71 | the delay never drops below 2000 ms and never shrinks along a streak |
| SignalMonitor.SignalMonitor.constructor | static/js/signal.js:1-9 | the page starts with a 2000 ms delay, no failures, nothing logged and no re-check pending |
| SignalMonitor.SignalMonitor.HandleSignalSuccess | static/js/signal.js:35-57 | resets the failure count and the delay, sets bar i lit iff i <= strength, and shows the unavailable marker (without no-modem) iff the strength is 0 |
| SignalMonitor.SignalMonitor.HandleSignalFailure | static/js/signal.js:59-72 | shows the no-modem marker, darkens every bar, logs only the first failure of a streak, adds one to the failure count and backs off |
| SignalMonitor.SignalMonitor.OnLoad | static/js/signal.js:16-25 | a 200 is a success: the failures and delay reset, the bars follow the strength, the unavailable marker shows iff the strength is 0, nothing is logged; any other status is a failure: the no-modem marker shows, every bar goes dark, "status:<status> response:<response>" is logged if it is the first failure of a streak, and the delay grows; either way exactly one re-check is scheduled with the delay then current |
| SignalMonitor.SignalMonitor.OnError | static/js/signal.js:27-30 | an error is a failure (no-modem marker, dark bars, the error text logged only as the first failure of a streak, a longer delay) followed by exactly one re-check with the delay then current |
| SignalMonitor.FailureStreak | static/js/signal.js:63-71 | after a success and k failures in a row the next poll waits DelayAfterStreak(k), which from the third failure on is 10000 + 2000 * (k - 3) ms |
| ConfigPage.JsRem | static/js/config.js:76-77 | JavaScript's `%` for a positive divisor: the dividend minus the divisor times the quotient rounded toward zero, so in [0, b) for a non-negative dividend and in (-b, 0] for a negative one |
| ConfigPage.JsRemOdd | static/js/config.js:76-77 | negating the dividend negates the remainder, which the Euclidean remainder does not |
| ConfigPage.FloorDiv | static/js/config.js:74-76 | `Math.floor(a / b)`: the greatest r with r * b <= a |
| ConfigPage.FormatDuration | static/js/config.js:70-80 | the result is empty iff the argument is falsy (absent or 0), and otherwise ends with the "s" of the seconds part |
| ConfigPage.Decomposition | static/js/config.js:74-77 | for non-negative seconds: minutes and seconds below 60, and hours*3600 + minutes*60 + seconds is the whole |
| ConfigPage.DivModUnique | static/js/config.js:76-77 | a quotient and a remainder below 60 are the ones division gives |
| ConfigPage.DigitsOnly | static/js/config.js:79 | no rendered number contains a unit letter |
| ConfigPage.UnitsShown | static/js/config.js:75-79 | for a positive duration "h" appears iff there is at least an hour, and "m" iff the minutes part is positive |
| ConfigPage.HourExample | static/js/config.js:79 | an hour renders as "1h0s" |
| ConfigPage.MinuteExample | static/js/config.js:79 | a minute renders as "1m0s" |
| ConfigPage.NegativeExample | static/js/config.js:71-79 | -1 ns is not falsy and renders as "-1s" |
| AudioTestPanel.Ids | static/js/audiorecording.ts:8-14 | the timers a recorded interval id stands for: that one timer, or none |
| AudioTestPanel.AudioPanel.constructor | static/js/audiorecording.ts:20-21 | no timer, no remembered state, countdown 0 |
| AudioTestPanel.AudioPanel.ClearInterval | static/js/audiorecording.ts:8-14 | stops the recorded timer and forgets both the timer and the last state |
| AudioTestPanel.AudioPanel.StartPolling | static/js/audiorecording.ts:15-18 | clears first and then starts one new one-second poll timer, which is then the only one running |
| AudioTestPanel.AudioPanel.EnableRecButton | static/js/audiorecording.ts:110-116 | stops polling and re-enables the button with its idle label |
| AudioTestPanel.AudioPanel.TestAPICall | static/js/audiorecording.ts:127-156 | sends one test-recording request, remembering whether its response is checked |
| AudioTestPanel.AudioPanel.TakeTestRecording | static/js/audiorecording.ts:118-125 | disables the button with "Making a test recording" and sends a checked request |
| AudioTestPanel.AudioPanel.OnTestLoad | static/js/audiorecording.ts:132-147 | only a checked request has a load handler: a 200 with exactly the body '"Asked for a test recording"\n' restarts polling with one timer; anything else stops polling, re-enables the button and raises an alert |
| AudioTestPanel.AudioPanel.OnTestError | static/js/audiorecording.ts:150-153 | a failed test request stops polling, re-enables the button and raises an alert |
| AudioTestPanel.AudioPanel.OnIdle | static/js/audiorecording.ts:35-46 | status 1: countdown 2, polling stopped, button re-enabled |
| AudioTestPanel.AudioPanel.OnPending | static/js/audiorecording.ts:47-56 | status 2: countdown 2 and "Test Recording Pending"; polling starts and the button is disabled only when no timer is recorded |
| AudioTestPanel.AudioPanel.OnTaking | static/js/audiorecording.ts:57-70 | status 3: shows "Taking Test Recording in Ns" and lowers the countdown while it is positive, otherwise "Taking Test Recording"; the countdown never goes negative |
| AudioTestPanel.AudioPanel.OnBusy | static/js/audiorecording.ts:71-86 | status 4: countdown 2 and "Already Taking an audio/a thermal Recording" by mode; only on entry does it start polling, disable the button and send one unchecked request |
| AudioTestPanel.AudioPanel.OnUnknown | static/js/audiorecording.ts:87-97 | any other status: countdown 0, "unknow state", polling stopped and the button re-enabled |
| AudioTestPanel.AudioPanel.OnStatusLoad | static/js/audiorecording.ts:28-101 | a non-200, or a 200 whose body is not JSON (reading `status` of the null response throws), changes nothing; status 1 sets the countdown to 2, stops polling, clears the text and re-enables the button; 2 sets the countdown to 2 and the pending text and starts polling (disabling the button) when no timer is recorded, otherwise remembers the state; 3 shows the countdown text and lowers the countdown, with the same polling rule; 4 sets the countdown to 2, remembers the state and shows the busy text, and only on entry starts polling, disables and relabels the button and sends one unchecked request; any other status sets the countdown to 0 and "unknow state", stops polling and re-enables the button |
| AudioTestPanel.AudioPanel.OnStatusError | static/js/audiorecording.ts:103-105 | the status request asks for JSON, so reading `responseText` in the error handler throws before the alert: nothing changes |
| AudioTestPanel.CountdownRun | static/js/audiorecording.ts:47-70 | pending followed by three taking polls shows "Pending", "in 2s", "in 1s", then "Taking Test Recording", with one timer throughout |
| AudioTestPanel.BusyTwice | static/js/audiorecording.ts:75-86 | two busy polls in a row send one unchecked request, not two, and leave one timer |
| AudioTestPanel.TestOutcome | static/js/audiorecording.ts:133-146 | an accepted test request leaves exactly one poll timer and a disabled button; a refused one leaves none and an enabled button |
| AudioTestPanelLegacy.LegacyAudioPanel.constructor | static/js/audiorecording.js:48-49 | no timer and no remembered state |
| AudioTestPanelLegacy.LegacyAudioPanel.StopTimer | static/js/audiorecording.js:63 | `clearInterval` stops the recorded timer but keeps its id |
| AudioTestPanelLegacy.LegacyAudioPanel.TakeTestRecording | static/js/audiorecording.js:50-57 | disables the button with "Making a test recording" and sends the request |
| AudioTestPanelLegacy.LegacyAudioPanel.OnTestLoad | static/js/audiorecording.js:59-77 | an accepted request replaces the timer with one new poll timer and leaves the button as it is; a 200 with another body stops the timer, keeps its id and re-enables the button; every 200 alerts the body; any other status alerts an error and changes nothing else |
| AudioTestPanelLegacy.LegacyAudioPanel.OnRequestError | static/js/audiorecording.js:41-43 | an error raises one alert and changes nothing else |
| AudioTestPanelLegacy.LegacyAudioPanel.OnStatusLoad | static/js/audiorecording.js:9-39 | a non-200 changes nothing; status 1 stops polling and re-enables the button only when a state was remembered, and otherwise leaves the button alone and the status text undefined; statuses 2 and 3 remember the state and show their text, leaving the timer and the button alone; any other status stops polling and re-enables the button but keeps the remembered state |
| AudioTestPanelLegacy.RefusedThenAccepted | static/js/audiorecording.js:59-71 | a refused request stops polling but keeps the stale id, and a later accepted one still leaves exactly one timer |
| AudioTestPanelLegacy.IdleStatusText | static/js/audiorecording.js:12-21 | an idle status before any other leaves the status text undefined; after a pending status it is cleared |
| ModemPage.Csv | static/js/modem.js:132-139 | every CSV text starts with the data-URI preamble followed by the header "Timestamp,Band,Strength\r\n" |
| ModemPage.PlainCounts | static/js/modem.js:137 | a value without separators contributes no comma, carriage return or line feed |
| ModemPage.RowCounts | static/js/modem.js:137 | the line of a row with plain values holds two commas and one "\r\n" |
| ModemPage.CsvRowsCounts | static/js/modem.js:136-139 | with plain values the rows contribute exactly one line per logged row, with two commas each |
| ModemPage.CsvRowsAppend | static/js/modem.js:136-139 | the lines of two runs of rows are those of the first run followed by those of the second |
| ModemPage.CsvExtends | static/js/modem.js:76 | since `logData` is never cleared, rows logged later only add lines at the end: the earlier CSV is a prefix of the later one |
| ModemPage.SignalLog.constructor | static/js/modem.js:76 | no rows logged and nothing offered for download |
| ModemPage.SignalLog.StartLogging | static/js/modem.js:78-81 | disables the button and labels it "Logging..." |
| ModemPage.SignalLog.LogSignalData | static/js/modem.js:117-130 | a response with a signal appends one row of the current time, band and strength; a failed request or one without a signal appends nothing |
| ModemPage.SignalLog.CreateCSVDownload | static/js/modem.js:132-151 | the CSV offered is the preamble, the header and one line per logged row in insertion order; the rows stay and the button is enabled again |
| ModemPage.TwoRuns | static/js/modem.js:76 | the second run's download still holds the first run's row ahead of its own |
| ManagementApi.Title | api/api.go:397-399 | title-casing keeps a word's letters and length, puts the first in upper case and the others in lower case |
| ManagementApi.TitleIdempotent | api/api.go:397-399 | title-casing a title-cased word changes nothing |
| ManagementApi.ToCamelCase | api/api.go:393-402 | the result is the camel-case name: the words between dashes and underscores, empty ones dropped, the first kept as it is, the others title-cased, joined without separator |
| ManagementApi.TitleKeepsBreaks | api/api.go:397-399 | title-casing a word introduces no dash or underscore |
| ManagementApi.CamelCaseUnbroken | api/api.go:393-402 | a camel-case name holds no dash and no underscore |
| ManagementApi.CamelCaseIdempotent | api/api.go:393-402 | converting a camel-case name again gives the same name |
| ManagementApi.LastLine | api/api.go:703-707 | the scanner loop leaves the last line of the file, or "" when there is none |
| ManagementApi.ParseBatteryLine | api/api.go:713-722 | a line is accepted iff it splits into exactly three comma fields; otherwise the format error |
| ManagementApi.BatteryLineRoundTrip | api/api.go:713-722 | an accepted line is its three comma-free fields joined by commas, in the order Time, MainBattery, RTCBattery |
| ManagementApi.BatteryLineFromFields | api/api.go:713-722 | three comma-free fields joined by commas are read back as they were |
| ManagementApi.GetLastBatteryReading | api/api.go:696-723 | an empty file gives the format error; otherwise the result is the reading of its last line |
| ManagementApi.DeviceType | api/api.go:1380-1393 | an unreadable minion id file gives ""; a non-empty device type comes only from an id holding a dash (DeviceTypePrefix states what it is) |
| ManagementApi.DeviceTypePrefix | api/api.go:1387-1393 | without a dash the type is ""; with one, the type followed by a dash and a dash-free rest is the whole id |
| ManagementApi.GetSSIDIds | api/api.go:1099-1107 | the map is built from the lines after the first, skipping empty ones; a non-empty line with fewer than two fields panics |
| ManagementApi.SsidPanicStays | api/api.go:1101-1107 | once a prefix of the output panics, the whole output does |
| ManagementApi.SsidNoPanic | api/api.go:1101-1107 | the table is read without a panic iff every non-empty line has at least two fields |
| ManagementApi.SsidReadRow | api/api.go:1101-1107 | in a table read without a panic every non-empty line is a row |
| ManagementApi.SsidPanicLine | api/api.go:1105-1106 | a panic comes from a non-empty line with fewer than two fields |
| ManagementApi.SsidKeys | api/api.go:1099-1107 | the keys are exactly the SSIDs (second fields) of the rows |
| ManagementApi.SsidKeyRow | api/api.go:1106 | every key is the second field of some row |
| ManagementApi.SsidRowKey | api/api.go:1106 | every row's second field is a key |
| ManagementApi.SsidLastWins | api/api.go:1106 | a row whose SSID no later row repeats decides that SSID's id, so a later duplicate overwrites an earlier one |
| WifiScan.ParseWiFiScanOutput | api/api.go:1193-1230 | the loop's result is the fold of the lines with the pending network appended at the end, or a panic exactly when the fold panics |
| WifiScan.ScanPanicStays | api/api.go:1198-1222 | once a prefix of the output panics, the whole output does |
| WifiScan.ScanCount | api/api.go:1199-1203 | there is one network per "Cell" line, and one is pending from the first "Cell" line on |
| WifiScan.ScanKeys | api/api.go:1204-1221 | every network reported has only the keys SSID, Quality, Signal Level and Security |
| WifiScan.UnknownKeepsSecurity | api/api.go:1218-1221 | a security value already set is never replaced by "Unknown" |
| WifiScan.AttributeBeforeCell | api/api.go:1204-1213 | a line that fills in a network before any "Cell" line writes to a nil map and panics |
| WpaConfig.AddNetwork | api/api.go:1121-1133 | nothing is written iff the file already contains `ssid="X"` |
| WpaConfig.ContainsMiddle | api/api.go:1122 | a text contains whatever was placed inside it |
| WpaConfig.AddIdempotent | api/api.go:1121-1133 | after adding a network the file names it, so adding the same SSID again, with any passkey, writes nothing: adding twice is adding once |
| WpaConfig.SegStep | api/api.go:1150-1167 | one line always leaves at least one segment |
| WpaConfig.FlattenSnoc | api/api.go:1150-1167 | the lines of the segments plus one more segment are the earlier lines followed by its lines |
| WpaConfig.KeptSnoc | api/api.go:1150-1167 | what is kept of the segments plus one more is the earlier kept lines followed by what that one keeps |
| WpaConfig.FlattenStep | api/api.go:1150-1167 | one step adds its line at the end of the segments' lines |
| WpaConfig.SegmentsPartition | api/api.go:1145-1167 | the segments are a partition of the lines: together, in order, they are exactly the file's lines |
| WpaConfig.StepOpener | api/api.go:1151-1153 | a "network={" line keeps what was kept and opens a block holding just itself, dropping a block left open before it |
| WpaConfig.StepInBlock | api/api.go:1154-1163 | a line inside an open block joins it; the block closes iff the line holds "}", and its lines are kept then iff their text does not contain `ssid="X"` |
| WpaConfig.StepOutside | api/api.go:1164-1166 | a line outside any block is kept as it is |
| WpaConfig.SegmentsWellFormed | api/api.go:1150-1167 | every block starts at its opener, holds no other opener, ends at its first closing line when closed and holds none while open |
| WpaConfig.StepWellFormed | api/api.go:1150-1167 | one step keeps the block structure |
| WpaConfig.ExtendWellFormed | api/api.go:1154-1163 | a line that is not an opener joining the open block keeps the block structure |
| WpaConfig.RemoveNetwork | api/api.go:1145-1169 | the text written is the kept lines of the segmented file joined by line breaks |
| WpaConfig.SplitConcat | api/api.go:1145 | splitting two texts joined by the separator gives the pieces of each |
| WpaConfig.SegmentsAppend | api/api.go:1150-1167 | lines that continue with an opener are segmented independently of what came before |
| WpaConfig.SegStepAppend | api/api.go:1150-1167 | a step only looks at the last segment |
| WpaConfig.SegmentsNonEmpty | api/api.go:1150-1167 | lines give at least one segment |
| WpaConfig.KeptAppend | api/api.go:1150-1167 | what is kept of two runs of segments is what is kept of each, in order |
| WpaConfig.ContainsHasChar | api/api.go:1151 | a text containing a piece contains each of its characters |
| WpaConfig.NoBraces | api/api.go:1151-1156 | a line without braces neither opens nor closes a block |
| WpaConfig.BlockLinesSplit | api/api.go:1127-1131 | the appended block splits into its four lines |
| WpaConfig.BlockJoined | api/api.go:1127-1131 | the appended block is its four lines joined by line breaks |
| WpaConfig.BlockLinesPlain | api/api.go:1127-1131 | for an SSID and passkey without line breaks, none of the four lines holds one |
| WpaConfig.FourLinesSplit | api/api.go:1145 | four lines without line breaks, joined by line breaks, split back into the same four |
| WpaConfig.SegmentsSnoc | api/api.go:1150 | the segments of one more line are one more step |
| WpaConfig.BlockNamesNetwork | api/api.go:1127-1131 | the appended block's text contains `ssid="X"` |
| WpaConfig.FourLineSegments | api/api.go:1150-1167 | the segments of four lines are four steps |
| WpaConfig.FourLineBlock | api/api.go:1150-1167 | an opener, two plain lines and a closing line form one closed block, dropped iff its text names the network |
| WpaConfig.ShortNoOpener | api/api.go:1151 | a line shorter than "network={" opens nothing |
| WpaConfig.BlockKept | api/api.go:1150-1167 | for an SSID and passkey without braces, the appended block's lines form one closed block |
| WpaConfig.BlockDropped | api/api.go:1158 | the removal drops the appended block, which names its own SSID |
| WpaConfig.RemoveAfterAdd | api/api.go:1112-1169 | removing a network right after adding it writes what removing it without the addition would have written, for an SSID and passkey without line breaks or braces |
| HotspotApi.WriteLines | api/hotspot.go:97-125 | reports a change iff the file is not already up to date (present and equal to the lines joined by newlines plus a final newline); on a change the file becomes every line followed by a newline, otherwise no file changes; no command runs |
| HotspotApi.CreateDHCPConfig | api/hotspot.go:85-95 | writes the default lines followed by the static router address line to /etc/dhcpcd.conf, reporting a change iff the file was not up to date |
| HotspotApi.StartDHCP | api/hotspot.go:127-137 | dhcpcd is restarted after the hotspot configuration is rewritten, and only started when the file was already up to date |
| HotspotApi.RestartDHCP | api/hotspot.go:139-153 | writes the default configuration, runs `systemctl daemon-reload`, then restarts dhcpcd iff the file changed and starts it otherwise |
| HotspotApi.StartDHCPTwice | api/hotspot.go:127-137 | the first start restarts dhcpcd exactly when the file was out of date; a second start right after only starts it |
| HotspotApi.DefaultAndHotspotDiffer | api/hotspot.go:71-95 | the hotspot configuration differs from the default one, so switching between them always rewrites the file |
| HotspotApi.CheckIsConnected | api/hotspot.go:155-166 | a failed `iwgetid` is passed on; otherwise the result is the trimmed output, and an empty one is the error "not connected to a network" |
| HotspotApi.NetworkNameTrimmed | api/hotspot.go:159-163 | a network name found is non-empty and has no white space at either end |
| HotspotApi.Checks | api/hotspot.go:172 | one check per `iwgetid` outcome, in order |
| HotspotApi.RetryFindsFirst | api/hotspot.go:171-175 | the first attempt that finds a network decides the outcome |
| HotspotApi.RetryExhausted | api/hotspot.go:171-178 | when no attempt finds a network the outcome is the last attempt's error |
| HotspotApi.RetryDecided | api/hotspot.go:171-178 | the outcome is the result of the call that stops the retries: the first success or the fifth call |
| HotspotApi.CheckIsConnectedWithRetries | api/hotspot.go:168-179 | at most five calls, stopping at the first that finds a network; the result is that call's check, every earlier call failed, and fewer than five calls means a network was found |
| HotspotApi.ParseMACAddresses | api/hotspot.go:306-319 | the addresses are, in line order, the second field of every line starting with "Station" that has at least two fields |
| HotspotApi.MacsAppend | api/hotspot.go:309-317 | the addresses of two runs of lines are those of the first followed by those of the second |
| HotspotApi.MacsFromStations | api/hotspot.go:311-315 | at most one address per line, each one named by some "Station" line, non-empty and free of white space |
| HotspotApi.StationsGiveMacs | api/hotspot.go:311-315 | every "Station" line with two fields contributes its address |
| HotspotApi.OtherLinesIgnored | api/hotspot.go:311 | lines not starting with "Station" add nothing |
| HostSystem.RenderedExpected | api/hotspot.go:104-118 | for a non-empty list of lines, what is written (each line plus a newline) equals what the change test compares against (lines joined by newlines, plus one) |
| HostSystem.EmptyRenderedDiffers | api/hotspot.go:104-118 | for an empty list the written file is empty while the change test expects a lone newline, so an empty configuration is never up to date |
| HostSystem.RenderedSplit | api/hotspot.go:116-119 | splitting the written text at newlines gives back the lines, then what follows |
| HostSystem.WrittenIsUpToDate | api/hotspot.go:97-125 | right after a non-empty list of lines is written, the change test finds the file up to date |
| HostSystem.Host.constructor | cmd/managementd/hotspot.go:222-241 | a device with the given files and no commands run yet |
| HostSystem.Host.WriteFile | cmd/managementd/hotspot.go:222-241 | the file at the path becomes every line followed by a newline, and nothing else changes |
| HostSystem.Host.Run | cmd/managementd/hotspot.go:34 | the command is appended to those run, and the files are unchanged |
| HotspotDaemon.CheckIsConnectedToNetwork | cmd/managementd/hotspot.go:105-135 | a failed `wpa_cli` gives "error executing wpa_cli: " and its error; otherwise connected iff the status fold of the lines is complete with an SSID and an IP address |
| HotspotDaemon.StatusCharacterised | cmd/managementd/hotspot.go:117-128 | the SSID is the value of the last "ssid=" line, the address that of the last "ip_address=" line, and the state is complete iff some line contains "wpa_state=COMPLETED" |
| HotspotDaemon.OtherLineKeepsValues | cmd/managementd/hotspot.go:119-124 | a line with neither prefix (such as "bssid=") leaves the SSID and address alone |
| HotspotDaemon.StatusSnoc | cmd/managementd/hotspot.go:117-128 | the status after one more line is one loop step from the status before it |
| HotspotDaemon.KeepsValue | cmd/managementd/hotspot.go:119-124 | a line that differs from "ssid=" or "ip_address=" at some position leaves that value unchanged |
| HotspotDaemon.SetsValue | cmd/managementd/hotspot.go:119-124 | a line `prefix + v` sets that value to v |
| HotspotDaemon.CompletedStays | cmd/managementd/hotspot.go:125-127 | once any line reports "wpa_state=COMPLETED", the state stays complete |
| HotspotDaemon.NotPrefix | cmd/managementd/hotspot.go:119-122 | a line shorter than a prefix, or differing in its first character, does not start with it |
| HotspotDaemon.ConnectedSampleHead | cmd/managementd/hotspot.go:139-147 | the first seven lines of the connected sample set the SSID and no address |
| HotspotDaemon.ConnectedSample | cmd/managementd/hotspot.go:139-153 | the connected sample status is connected iff its SSID and IP address are non-empty |
| HotspotDaemon.ScanningSample | cmd/managementd/hotspot.go:155-161 | the scanning sample, whatever its state, is not connected |
| HotspotDaemon.WrongPasswordSampleHead | cmd/managementd/hotspot.go:172-178 | the first seven lines of the wrong-password sample set no address |
| HotspotDaemon.WrongPasswordSample | cmd/managementd/hotspot.go:172-184 | the wrong-password sample is complete and has an SSID but, lacking an address, is not connected |
| HotspotDaemon.StatusResults | cmd/managementd/hotspot.go:190 | one status check per `wpa_cli` outcome, in order |
| HotspotDaemon.WaitDecidedBy | cmd/managementd/hotspot.go:189-196 | the first poll that does not report "not connected" decides the wait: its error or "connected" |
| HotspotDaemon.WaitAllMissed | cmd/managementd/hotspot.go:189-199 | when all polls report "not connected", so does the wait |
| HotspotDaemon.WaitAndCheckIfConnectedToNetwork | cmd/managementd/hotspot.go:188-200 | at most ten polls, stopping at the first error or connection; every earlier poll missed, the result is the deciding poll's, and ten polls that all miss give "not connected" |
| HotspotDaemon.Config | cmd/managementd/hotspot.go:329-337 | WIFI gives the thirteen default lines, HOTSPOT those followed by the three hotspot lines, and any other mode nothing |
| HotspotDaemon.SetDHCPMode | cmd/managementd/hotspot.go:329-369 | when /etc/dhcpcd.conf is up to date for the mode nothing is written and dhcpcd is started; otherwise the configuration is rewritten and dhcpcd restarted |
| HotspotDaemon.DhcpFilesOnlyConf | cmd/managementd/hotspot.go:339-365 | no file other than /etc/dhcpcd.conf is created, removed or changed |
| HotspotDaemon.SetDHCPModeTwice | cmd/managementd/hotspot.go:329-369 | for WIFI and HOTSPOT a second call only starts dhcpcd; for any other mode, once a rewrite has happened every call rewrites the empty file and restarts dhcpcd |
| HotspotDaemon.StartHotspot | cmd/managementd/hotspot.go:260-283 | writes the hostapd and dnsmasq configurations, sets the HOTSPOT DHCP mode, then restarts dnsmasq and hostapd, in that order |
| HotspotDaemon.InitialiseHotspot | cmd/managementd/hotspot.go:244-284 | sets the WIFI DHCP mode, waits for a network; a wait error is returned, a connection gives "already connected to a network", and only when no network is found is the hotspot started |
| HotspotDaemon.HotspotRefusedWhenConnected | cmd/managementd/hotspot.go:252-258 | when the first poll finds a network the hotspot is refused and the hostapd and dnsmasq files are left as they were |
| Helpers.IsClientError | clienterror.go:35-38 | whether the error is a client error, which does not depend on its text: it is one iff it equals the client error carrying its own text, and otherwise the other error with that text |
| Helpers.SuccessMessage | helpers.go:117-122 | the message when there was no error, and the empty string when there was one |
| Helpers.ErrorMessage | helpers.go:124-129 | the empty string when there was no error, otherwise the error's text |
| Helpers.MessagesExclusive | helpers.go:117-129 | a page never shows a success and an error message together; a non-empty success message is shown iff there was no error |
| Helpers.NaNIncomparable | location.go:154 | NaN is neither below nor above any value, so `<` and `>` tests never reject it |
| Helpers.LessFinite | location.go:154 | on finite values `<` is the order of the reals, and no value is below itself |
| Helpers.ParseFloat | helpers.go:33-39 | accepted iff `strconv.ParseFloat` succeeds; the value is the parsed number, or 0 when rejected |
| Helpers.ParseOptionalFloat | helpers.go:41-50 | an empty value is 0 and accepted |
| Helpers.OptionalFloatAgrees | helpers.go:41-50 | an optional value is rejected iff it is non-empty and does not parse; a non-empty value is handled exactly as by `parseFloat` |
| Helpers.ParseTimestamp | helpers.go:60-69 | an empty value is the current time; otherwise accepted iff it parses as RFC 3339, with the zero time when rejected |
| Helpers.ParseTimeString | helpers.go:73-82 | an empty value is the zero time with the client error "Could not parse time string."; a value the hwclock layout rejects gives the zero time and a client error with that text followed by the parser's error; otherwise the parsed time and no error; every error it returns is a client error |
| Helpers.EmptyValueRules | helpers.go:41-82 | the empty value is accepted by the optional parsers and refused by `parseTimeString`, and every `parseTimeString` error is a client error whose text starts with the same message |
| Helpers.Reversed | helpers.go:131-137 | the reverse has the same length, and its element i is element len-1-i of the original |
| Helpers.ReversedTwice | helpers.go:131-137 | reversing twice gives back the original |
| Helpers.ShortReversed | helpers.go:134 | slices of length 0 or 1 are their own reverse (the loop does not run) |
| Helpers.Reverse | helpers.go:131-137 | swapping in place leaves the array holding the reverse of its old contents |
| Helpers.ReverseTwice | helpers.go:131-137 | reversing an array in place twice restores it |
| Location.AcceptsAgree | location.go:153-172 | the range test as written and the finite-only test agree except on NaN, which only the written one accepts |
| Location.Validate | location.go:151-181 | a rejection is one of the five field messages; every accepted value passes its range test; an accepted timestamp is the current time for an empty value and otherwise the RFC 3339 parse of the value |
| Location.LocationDataOf | location.go:151-181 | the validator as written: every value it accepts lies within its documented bounds unless it is NaN |
| Location.LocationDataChecked | location.go:151-181 | the corrected validator accepts only what the validator as written accepts, with the same values (CheckedInRange states its bounds) |
| Location.ValidationOrder | location.go:151-181 | a location is accepted iff every field passes; otherwise the first failing field, in the order latitude, longitude, timestamp, altitude, accuracy, names the error; an accepted location holds the parsed values, with the current time and zeros for empty optional fields |
| Location.CheckedInRange | location.go:35-40 | every accepted location is finite and inside the documented bounds: latitude in [-90, 90], longitude in [-180, 180], altitude and accuracy in [0, 10000] |
| Location.CheckedAgrees | location.go:151-181 | unless a field parses to NaN, the validator as written and the corrected one give the same result |
| Location.NaNLatitudeAccepted | location.go:153-156 | with "NaN" as latitude the validator as written accepts the location and stores NaN; the corrected one reports the latitude error |
| Location.LocationStore.constructor | location.go:185-191 | a store holding the given location file, or none |
| Location.LocationStore.ReadLocationFile | location.go:194-208 | a missing file reads as the zero location, otherwise the stored location |
| Location.LocationStore.HandleLocationPostRequest | location.go:90-111 | "clear" stores the zero location and shows empty values with no error; any other action replaces the form's timestamp with the current time, and on a validation error returns it as a client error with the file unchanged, otherwise stores the validated location; the program validates as written (`strict` false) |
| Location.PostThenRead | location.go:44-111 | after posting, reading the file gives the zero location for "clear"; otherwise the post succeeds iff the form validates, a successful post reads back the validated form and a rejected one leaves the earlier location |
| Location.NaNPostStored | location.go:90-111 | posting latitude "NaN" through the handler as written stores and reads back a NaN latitude with longitude 0 and the parsed current timestamp, while the corrected handler rejects it with the latitude error |
| Audiobait.GetAudiobaitLogEntries | audiobait.go:38-76 | a failed `journalctl` or an output without a second line gives "Could not get audio bait logging info."; a second line containing "NO ENTRIES" in any case gives "There are no audio bait log entries."; otherwise the non-empty lines after the header, newest first, each followed by a newline |
| Audiobait.NonEmptySnoc | audiobait.go:58-62 | keeping the non-empty lines of a longer list keeps those of the shorter list, then the new line if it is non-empty |
| Audiobait.NonEmptyLines | audiobait.go:58-62 | the kept entries are exactly the non-empty lines, in order |
| Audiobait.Concatenate | audiobait.go:69-72 | the text is every entry followed by a newline, in array order |
| Audiobait.LogEntriesNewestFirst | audiobait.go:57-74 | splitting the page text at newlines gives the non-empty log lines in reverse order, then the empty piece after the last newline |
| Audiobait.IsAudiobaitRunning | audiobait.go:78-98 | running iff both commands succeed, `is-active` answers "ACTIVE" and `is-enabled` answers "ENABLED", trimmed and ignoring case |
| Audiobait.ActiveAnswers | audiobait.go:85 | the answer "active" counts as active, and "inactive" never does |
| Audiobait.DisplayComboShape | audiobait.go:199-227 | one row per sound in order with its volume; each row's wait is the next sound's wait in minutes, truncated, and the last row's is 0; the interval is shown in whole minutes; without a library the sound ids are shown as they are |
| Audiobait.ConvertCombo | audiobait.go:200-225 | panics exactly when a volume or a needed wait is missing; otherwise gives the displayed combination |
| Audiobait.ConvertCombos | audiobait.go:199-227 | panics iff some combination does; otherwise one displayed combination per schedule combination, in order |
| GoApiError.IsPermanentError | vendor/github.com/TheCacophonyProject/go-api/error.go:36-47 | no error is not permanent; the library's own error is permanent iff it says so; every other error is permanent |
| GoApiError.TemporaryError | vendor/github.com/TheCacophonyProject/go-api/error.go:49-51 | the library's own error, with the same message |
| GoApiError.TemporaryIsRetryable | vendor/github.com/TheCacophonyProject/go-api/error.go:36-51 | an error wrapped as temporary is not permanent and keeps its message, while the same error unwrapped, if not the library's own, is permanent |
| GoApiConfig.IsValid | vendor/github.com/TheCacophonyProject/go-api/config.go:47-56 | valid iff the password is set and the device id is non-zero, so the zero value is never valid |
| GoApiConfig.Validate | vendor/github.com/TheCacophonyProject/go-api/config.go:58-68 | no error iff both the server URL and the device name are set; a missing server URL is reported first, then a missing device name; the group is not checked |
| GoApiConfig.ParseConfig | vendor/github.com/TheCacophonyProject/go-api/config.go:80-90 | a decoding error is returned unchanged; a decoded configuration is returned iff it validates, and otherwise the validation error is |
| GoApiConfig.ParsedIsValid | vendor/github.com/TheCacophonyProject/go-api/config.go:79-90 | a parsed configuration is the decoded one and names a server and a device; a decoding error is returned unchanged, and a missing server URL gives "server-url missing" |
| GoApiConfig.LockSafeConfig.constructor | vendor/github.com/TheCacophonyProject/go-api/config.go:110-115 | an unlocked configuration for the file, with nothing read yet |
| GoApiConfig.LockSafeConfig.GetExLock | vendor/github.com/TheCacophonyProject/go-api/config.go:121-127 | the lock is held afterwards iff it was held or was obtained; a lock error is returned; the file and the cached configuration are untouched |
| GoApiConfig.LockSafeConfig.Unlock | vendor/github.com/TheCacophonyProject/go-api/config.go:117-119 | the lock is released and nothing else changes |
| GoApiConfig.LockSafeConfig.Read | vendor/github.com/TheCacophonyProject/go-api/config.go:137-158 | without the exclusive lock and without a read lock it returns nil and the lock error, if any; otherwise it returns the file's content (nil when missing, with no error) and caches what it read |
| GoApiConfig.LockSafeConfig.Write | vendor/github.com/TheCacophonyProject/go-api/config.go:160-173 | while the lock is held the file becomes the id and password; otherwise "WritePassword could not get file lock " and the file name, with the file unchanged |
| GoApiConfig.WriteThenRead | vendor/github.com/TheCacophonyProject/go-api/config.go:137-173 | a write under the exclusive lock is what the next read returns; without the lock the write fails and the old content is read back |
| GoApiClient.TokenResponse.Message | vendor/github.com/TheCacophonyProject/go-api/api.go:329-336 | the first message, or "unknown" when there is none |
| GoApiClient.HandleHTTPResponse | vendor/github.com/TheCacophonyProject/go-api/api.go:457-471 | no error iff the status is 2xx; any failure is the library's own error |
| GoApiClient.ResponsePermanence | vendor/github.com/TheCacophonyProject/go-api/api.go:459-484 | a failed response is permanent iff the status is 4xx and its body could be read; no status is both a success and a client error |
| GoApiClient.IsHTTPSuccess | vendor/github.com/TheCacophonyProject/go-api/api.go:478-480 | true iff the status class digit is 2 |
| GoApiClient.IsHTTPClientError | vendor/github.com/TheCacophonyProject/go-api/api.go:482-484 | true iff the status class digit is 4, and then never a success |
| GoApiClient.CacophonyAPI.constructor | vendor/github.com/TheCacophonyProject/go-api/api.go:144-168 | the device's group, name, password and id as configured, with no token, not just registered and nothing sent |
| GoApiClient.CacophonyAPI.Authenticate | vendor/github.com/TheCacophonyProject/go-api/api.go:170-213 | without a password it fails with "no password set" and sends nothing; otherwise it posts the password with the id when positive, else with the name and group; on success it takes the id and token from the response, on failure it returns the transport, HTTP or "decode: " error and changes nothing else |
| GoApiClient.CacophonyAPI.Register | vendor/github.com/TheCacophonyProject/go-api/api.go:235-276 | with a password already set it fails with "already registered" and sends nothing; otherwise it posts the group, name and new password; on success it takes the id, the new password and the token and marks the device just registered; on failure it changes nothing but what was sent |
| GoApiClient.CacophonyAPI.RegisterOrAuthenticate | vendor/github.com/TheCacophonyProject/go-api/api.go:144-168 | a device without a password posts one registration, takes the id, password and token, is marked just registered and writes its new id and password, or returns the write-lock error with the file unchanged; one with a password posts one authentication, takes the id and token, and writes the id only when the stored id was 0 and the new one positive (the write-lock error without the lock), otherwise leaving the file; any exchange error is returned with the file, id and token unchanged; a missing cached configuration panics |
| GoApiClient.RegisterNewDevice | vendor/github.com/TheCacophonyProject/go-api/api.go:144-154 | a new device that registers successfully under the lock saves the generated password and the server's id, which is a valid private configuration iff both are non-empty and non-zero |
| GoApiClient.AuthenticateKnownDevice | vendor/github.com/TheCacophonyProject/go-api/api.go:177-185 | a device with a password posts its id when positive, else its name and group |
| NetworkInterface.IndexFrom | networkInterface.go:68 | -1 iff the text does not occur from the start position on; otherwise the first position from there at which it occurs |
| NetworkInterface.DigitValue | networkInterface.go:72-73 | between 0 and 9, and positive iff the character is a digit from 1 to 9 (anything else converts to 0) |
| NetworkInterface.InterfaceStatus | networkInterface.go:57-85 | every report starts with the "Testing" and "Sending 3 packets" lines and ends with the separator; an interface is UP iff the output contains "transmitted" and the character 13 places after its first occurrence is a digit from 1 to 9; without "transmitted" the report is the four lines with DOWN |
| NetworkInterface.ReadsOneDigit | networkInterface.go:70-76 | only one character of the received count is read, so a count of 10 is shown as 1 and judged UP |
| NetworkInterface.PanicPersists | networkInterface.go:57-86 | once the reports of the first interfaces panic, the whole report does |
| NetworkInterface.ReportInterface | networkInterface.go:59-84 | one loop pass gives that interface's report, panicking when the received count would be read past the end of the output |
| NetworkInterface.ReportInterfaces | networkInterface.go:57-86 | the loop gives the interfaces' reports concatenated in order, or panics at the first report that does |
| NetworkInterface.IpconfigLines | networkInterface.go:87-95 | one entry per newline-separated piece of the `ipconfig` output, and joining them with newlines gives the output back |
| NetworkInterface.AvailableInterfaces | networkInterface.go:44-98 | an error listing the interfaces is returned; on Linux the ping report (or its panic), elsewhere the `ipconfig` lines |

## Left out

- Transport and I/O are not modelled: sockets, HTTP, D-Bus, `exec`, and file reads and writes. Their outcomes are inputs and their effects are state or results. Errors from writing a file or running a command are left out wherever the source only passes them on.
- Concurrency is not modelled: goroutines, `socketsLock`, the per-socket `AtomicLock` compare-and-swap, the frame channels and the offload cancellation. The registry and the encoder are sequential.
- Timers and sleeps are explicit calls or counted polls: the five-second and one-second retries, the 100 ms registration retry and the heartbeat interval. Wall-clock time is a parameter.
- The floating-point intensity in `processFrame` is an abstract function from a sample and the frame's bounds to a grey byte. Only the min/max computation and the RGBA layout are proved.
- JSON, YAML, `strconv.ParseFloat`, `strconv.Atoi`, RFC 3339 and hwclock time parsing, `time.Format` and the two scan regular expressions are parameters. Their own correctness is not part of this model.
- ManagementApi.Title: models `cases.Title(language.English)` for ASCII letters only, and as one word per dash- or underscore-separated piece. Unicode title-casing can change a word's length ("ß" becomes "Ss"), and `cases.Title` also starts a new word after a space or other punctuation inside a piece ("a-b c" gives "aB C" where the model gives "aB c").
- CameraClient.CameraConnection.OnMessage: is one atomic step. The handler awaits `parseFrame` before calling `onFrame` and counting, so a close, a timer or another message can run in between; the model does not capture that interleaving.
- Text.ToUpper and Text.ToLower change ASCII letters only, whereas Go's functions follow Unicode. Every comparison in the source is against ASCII words.
- Byte and character indexing are taken to agree. The source indexes ping output and frame headers by byte, and the model treats text as a sequence of characters, which is the same for ASCII output.
- `encodeURI` of the modem CSV, the download link and the rest of the DOM glue are not part of this model.
- The two `stopHotspot` functions are not part of this model. They only run `systemctl stop` commands and then the modelled `RestartDHCP` (api/hotspot.go) or `setDHCPMode` (cmd/managementd/hotspot.go).
- The API's `initilseHotspot`, `isHotspotRunning` and `listConnectedDevices` are not part of this model beyond the helpers they call, which are modelled.
- `apiFromConfig`, `NewAPI` and the upload and download calls of the API client library are not part of this model: they are HTTP and file plumbing.
- `parseISOTimeString` in helpers.go is not part of this model: no modelled handler uses it.
- Location.LocationStore.HandleLocationPostRequest: does not model the failure to write the location file ("could not write location file"), because file writes cannot fail in the model.
- GoApiConfig.LockSafeConfig.Read: does not model a YAML decoding error or a read error other than a missing file, because the file holds a decoded value.
- GoApiConfig.LockSafeConfig.Write: does not model a YAML encoding error, because encoding a password and an id cannot fail in the model.
- GoApiClient.CacophonyAPI.Authenticate: does not model a JSON encoding error of the payload, because encoding a map of strings and an integer cannot fail in the model.
- Helpers.ParseOptionalFloat: its own contract states only the empty-value rule, and the rest is stated by Helpers.OptionalFloatAgrees.

## Findings

| source | as written | input that shows it | evidently intended | confidence | as-written member | corrected member |
|---|---|---|---|---|---|---|
| location.go:153-172 | each range test rejects a value only when it is below the lower bound or above the upper bound; comparisons with NaN are false, and `strconv.ParseFloat` accepts "NaN" | latitude "NaN", longitude "0": the location is accepted and stored with a NaN latitude | a value outside the stated ranges, NaN included, is rejected (Location.LocationDataChecked, the handler with `strict` true; the program's handler, `strict` false, stores the NaN location, as Location.NaNPostStored shows); every accepted location is finite and within its bounds | medium, not executed | Location.NaNLatitudeAccepted | Location.CheckedInRange |
