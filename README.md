# aguada telemetry core in Dafny

aguada monitors the water reservoirs of a campus. Ultrasonic and digital sensor nodes (ESP32 `node_sensor_v2`, the Arduino `node_10`) measure tank levels and valve and sound inputs. They send telemetry packets over ESP-NOW to a gateway. The gateway forwards each packet as a JSON line on USB serial, and a serial bridge posts it to the Node.js backend. The backend:

- validates each packet and drops duplicates;
- stores the raw reading and compresses each series with a deadband;
- derives volumes and detects supply, leak and critical-level events;
- tracks which sensors and gateways are online;
- keeps metrics and alert history, and exports CSV.

Two web dashboards turn the latest readings into volumes, percentages and colours.

This project models that core and proves properties of the model. There is one Dafny module per source file:

- backend: `Compression`, `Readings`, `Volume`, `Events`, `Duplicate`, `Status`, `StatusController`, `Metrics`, `Alerts`, `Export`, `Schema`, `TelemetryController`, `SerialBridge`;
- firmware: `GatewayQueue`, `GatewayRegistry`, `Protocol`, `NodeMain`, `NodeSensor`, `GatewayUsb`, `Node10`;
- frontends: `Dashboard` (app.js), `ApiService` and `ReactCalc`.

Shared modules:

- `Wrappers`: `Option` for null returns and `Result` for thrown errors;
- `Text`: string predicates and number formatting;
- `Sorting`: the sort on a copy that JavaScript's `sort` and C's `qsort` perform;
- `MachineInt`: `uint8_t`/`uint16_t`/`uint32_t` and their wrap-around;
- `Esp`: the ESP-IDF error codes used.

Modelling conventions:

- **Numbers.** JavaScript numbers are reals. C integers are integers, with their machine width written out where it matters.
- **Time.** `Date.now()` and `millis()` are a parameter `now`.
- **Stores.** The database tables, the Redis key store and the processing queue are in-memory classes, updated in place as the services update them. A store's `available` flag models an unreachable server: every operation then fails and changes nothing.
- **Database faults.** A query can also fail on its own. The telemetry handlers number their database calls in the order they make them (each sensor lookup, each insert, the offset update) and take a parameter `faults` naming the first call that throws, if any. The calls before it take full effect, since the handlers use no transaction.
- **Mutable state.** Objects whose fields the source updates become classes: the queue and registry of the gateway, the status and metrics services, the alert history, the serial bridge and the node's last-sent state. Their methods state their whole new state. Pure helpers become functions, each paired with lemmas about it.
- **External libraries.** Results from code outside the model are parameters:
  - the verdict of a schema validator that is not exported;
  - what `JSON.parse` made of a line;
  - whether an HTTP post answered 2xx;
  - what the GPIO polling observed;
  - what `Number(...)` and `new Date(...)` return.

## Model

| member | source | states |
|---|---|---|
| Compression.VolumeFor | backend/src/services/compression.service.js:18-24 | volume and percentage are present exactly for a `nivel_cm` series with element parameters, and then are calculateVolume of valor + (ajuste_offset or 0) |
| Compression.ProcessCompression | backend/src/services/compression.service.js:13-108 | a store error is returned and nothing changes; otherwise the call follows the decision taken from the latest processed row and the recent raw window: a first reading appends exactly one row, an extension changes only that row's data_fim, a commit appends exactly one row; raw rows never change; events are written only after a commit where both volumes are known |
| Compression.ChangedReading | backend/src/services/compression.service.js:51-102 | past the deadband, an unstable short window only extends the latest row, anything else appends one row and possibly runs the detectors |
| Compression.CommitChange | backend/src/services/compression.service.js:76-102 | appends exactly one processed row, then runs the detectors only when the previous and the new volume are both known |
| Compression.DetectEvents | backend/src/services/compression.service.js:113-127 | supply, leak, critical level in that order; the events table grows only by what the detectors produce, and an unavailable event store changes nothing and raises nothing |
| Compression.FirstReadingBootstraps | backend/src/services/compression.service.js:29-48 | with no previous row the decision is a bootstrap row with criterio primeira_leitura, variacao 0, data_inicio = data_fim = datetime, no meta, the adjusted value |
| Compression.DeadbandExtends | backend/src/services/compression.service.js:51-63 | a change of at most DEADBAND_CM only extends the latest row |
| Compression.BeyondDeadband | backend/src/services/compression.service.js:65-91 | beyond the deadband: stddev above STABILITY_STDDEV with fewer than WINDOW_SIZE samples extends; otherwise one row carries variacao = delta, a point interval and meta {stddev, window_size} |
| Compression.VolumeOnlyForLevel | backend/src/services/compression.service.js:20-24 | a written row has a volume iff the series is `nivel_cm` with parameters, and a percentage iff it has a volume |
| Compression.DistanceSeriesNeverDetects | backend/src/services/compression.service.js:99-102 | a `distance_cm` series never runs the event detectors |
| Readings.NewRawRow | backend/src/services/reading.service.js:31-43 | the stored raw row takes unidade `cm`, modo `automatica`, observacao null and datetime now when those are absent or empty, and keeps valor |
| Readings.NewProcessedRow | backend/src/services/reading.service.js:109-123 | the stored processed row takes unidade `cm` when absent and keeps its interval |
| Readings.WithDataFim | backend/src/services/reading.service.js:145-149 | same number of rows; only data_fim of the row with that proc_id changes |
| Readings.RawOf | backend/src/services/reading.service.js:170 | exactly the raw rows of the series |
| Readings.RecentRowsAreNewest | backend/src/services/reading.service.js:167-173 | min(windowSize, series length) rows of the series, newest first, and no row left out is newer than a row returned |
| Readings.LatestOfIsLatest | backend/src/services/reading.service.js:64-73 | None iff the series has no processed row; otherwise a row of the series that no row of the series ends after |
| Readings.ReadingStore.InsertRawReading | backend/src/services/reading.service.js:7-57 | appends exactly one raw row with the defaults and returns it; an unreachable store fails and changes nothing |
| Readings.ReadingStore.GetLastProcessedReading | backend/src/services/reading.service.js:62-78 | the latest row of the series by data_fim, None iff the series has none; fails iff the store is unreachable |
| Readings.ReadingStore.InsertProcessedReading | backend/src/services/reading.service.js:83-138 | appends exactly one row and returns its proc_id; raw rows unchanged |
| Readings.ReadingStore.ExtendProcessedReading | backend/src/services/reading.service.js:143-160 | only data_fim of the row with that proc_id changes, and that row is returned; an unknown proc_id changes nothing and returns None |
| Readings.ReadingStore.GetRecentReadings | backend/src/services/reading.service.js:165-181 | the valores of the newest windowSize raw rows of the series, at most windowSize of them |
| Readings.ExtendChangesOnlyDataFim | backend/src/services/reading.service.js:145-149 | every row other than proc_id is unchanged, and that row differs only in data_fim |
| Volume.CalculateVolume | backend/src/services/volume.service.js:6-51 | a level below the offset or an unknown forma gives {0, 0}; otherwise the cylinder or box volume of the level above the offset, within rounding to 3 decimals, and the percentage of the usable height capped at 100, within rounding to 2 decimals; the percentage always lies in [0, 100] and is 0 when the usable height is not positive |
| Volume.GeometricVolumeMonotone | backend/src/services/volume.service.js:20-31 | a higher level never gives a smaller volume, and volumes are non-negative |
| Volume.ToFixedClose | backend/src/services/volume.service.js:43-44 | `parseFloat(x.toFixed(d))` lies within half a unit of the last kept digit of x |
| Volume.ToFixedMonotone | backend/src/services/volume.service.js:43-44 | rounding keeps the order of non-negative values |
| Volume.ToFixedPercentBounds | backend/src/services/volume.service.js:44 | 0 and 100 are kept exactly by rounding to 2 decimals |
| Volume.MedianOfSorted | backend/src/services/volume.service.js:56-65 | on sorted input the median is the middle element, or the mean of the two middle elements for an even count |
| Volume.MedianOrderIndependent | backend/src/services/volume.service.js:59 | the median depends only on the multiset of values, since a sorted copy is used and the input is not reordered |
| Volume.MedianWithinValues | backend/src/services/volume.service.js:56-65 | the median lies between two of the values, and is one of them for an odd count |
| Volume.Variance | backend/src/services/volume.service.js:70-77 | the population variance (divided by n) is non-negative, 0 for no values |
| Volume.StdDevExceedsIff | backend/src/services/volume.service.js:70-77 | comparing the variance with threshold² decides exactly whether the standard deviation exceeds the threshold |
| Volume.VarianceOfConstant | backend/src/services/volume.service.js:70-77 | a window of identical readings has zero deviation |
| Events.SupplyEvent | backend/src/services/event.service.js:8-43 | an ABASTECIMENTO event exists iff the volume rose by at least 50 L, with confidence 0.9, detector volume_engine, inicio = fim = datetime and at least 50 L supplied |
| Events.NivelRowsSince | backend/src/services/event.service.js:52-58 | exactly the element's `nivel_cm` rows whose data_fim is after the cut-off |
| Events.LeakWindowSorted | backend/src/services/event.service.js:52-61 | the trailing-hour window is in ascending data_fim order |
| Events.LeakRateAsWritten | backend/src/services/event.service.js:71-73 | the rate times the duration in hours is the litres gained, defined only for a non-zero duration |
| Events.LeakWindowAdmitsZeroDuration | backend/src/services/event.service.js:52-73 | two rows of the series ending at the same instant form a window of duration 0 with a volume drop |
| Events.LeakEvent | backend/src/services/event.service.js:63-101 | a VAZAMENTO event exists iff the window has two rows, a non-zero duration and a rate below −15 L/h; confidence 0.75, detector leak_detector, the interval from the first to the last data_fim, and rate, lost litres and duration to 2 decimals |
| Events.LeakEventInterval | backend/src/services/event.service.js:75-89 | on the queried window a leak event spans a forward interval of positive length, covering every row of the window, in which water was lost |
| Events.LeakRateNegative | backend/src/services/event.service.js:71-75 | a rate below −15 L/h on an ascending window means a positive duration and a loss |
| Events.CriticalEvent | backend/src/services/event.service.js:112-176 | a NIVEL_CRITICO_CAV event exists iff the element is `incendio`, the percentage is below 70 and every row of the trailing ten minutes is below 70 (vacuously for none); confidence 0.95, inicio = fim = datetime |
| Events.EventStore.InsertEvent | backend/src/services/event.service.js:181-208 | appends exactly one row, or fails and changes nothing |
| Events.EventStore.DetectSupplyEvent | backend/src/services/event.service.js:8-43 | the event inserted is SupplyEvent's, none otherwise; a failing insert is raised and changes nothing |
| Events.EventStore.DetectLeakEvent | backend/src/services/event.service.js:49-106 | the event inserted is LeakEvent's over the trailing-hour window; a failing query or insert is raised and changes nothing |
| Events.EventStore.DetectCriticalLevel | backend/src/services/event.service.js:112-176 | the event inserted is CriticalEvent's over the element's tipo and the ten-minute window; failures are raised |
| Events.DetectedEventsOrdered | backend/src/services/compression.service.js:113-127 | one commit appends at most three events, at most one of each kind, in the order supply, leak, critical, all for the series' element |
| Duplicate.GenerateHash | backend/src/services/duplicate.service.js:14-24 | the key keeps the sensor id, the second the timestamp falls in (milliseconds dropped) and the value times 100 rounded half up |
| Duplicate.SameSecondKeysIff | backend/src/services/duplicate.service.js:20-23 | within one second two readings of a sensor share a key iff their values round to the same hundredth |
| Duplicate.CloseValuesCanSplit | backend/src/services/duplicate.service.js:21 | values 0.002 apart can round to different hundredths and so get different keys |
| Duplicate.SecondBoundarySplits | backend/src/services/duplicate.service.js:16-20 | readings one millisecond apart across a second boundary never share a key |
| Duplicate.DuplicateStore.IsDuplicate | backend/src/services/duplicate.service.js:30-61 | true iff the store works and the key is live, and then nothing is written; otherwise a working store records the key for two seconds and answers false; a failing store answers false and stores nothing |
| Duplicate.SuppressionWindow | backend/src/services/duplicate.service.js:4-53 | a stored key is found exactly during the two seconds after it is written, which covers the declared one-second window |
| Duplicate.RepeatWithinTtl | backend/src/services/duplicate.service.js:40-55 | the first check of a reading answers false and a repeat within two seconds answers true |
| Status.KeepLast | backend/src/services/status.service.js:258-262 | the newest n entries in arrival order, or all of them when there are at most n |
| Status.KeepLastAppend | backend/src/services/status.service.js:250-265 | logging into a history within its bound keeps it within the bound and ends with the new entry |
| Status.SensorHeartbeatEntry | backend/src/services/status.service.js:169-195 | the stored entry is online, seen now, with no failures, and keeps the old mac when neither mac nor node_mac is given |
| Status.Classify | backend/src/services/status.service.js:283-290 | offline iff elapsed exceeds the timeout, online iff it exceeds neither the timeout nor the warning threshold, warning otherwise; never unknown |
| Status.ClassifyMonotone | backend/src/services/status.service.js:283-290 | a longer silence never gives a better state |
| Status.NoWarningBand | backend/src/services/status.service.js:323-329 | a warning threshold at or above the timeout (the gateway defaults, 60 s and 60 s) never yields warning |
| Status.SweepSensor | backend/src/services/status.service.js:277-314 | an entry never seen is skipped; otherwise only status and consecutiveFailures change, the latter by one exactly when the new status is offline |
| Status.SweepGateway | backend/src/services/status.service.js:317-347 | gateways use the gateway timeout and only their status changes |
| Status.Tally | backend/src/services/status.service.js:435-449 | the total is the number of entities |
| Status.TallyPartition | backend/src/services/status.service.js:435-449 | online, warning, offline and unknown counts add up to the total |
| Status.SystemHealth | backend/src/services/status.service.js:451-461 | critical iff sensors or gateways exist and none of them is online; healthy iff not critical and nothing is offline; degraded otherwise |
| Status.RegisteredEntry | backend/src/services/status.service.js:522-531 | a registered entry is unknown and never seen, under the key it is filed by (its sensor_id, else its sensorId, else `undefined`) |
| Status.RegisterNeverOverwrites | backend/src/services/status.service.js:519-535 | registration keeps every existing entry unchanged and adds exactly the listed keys, each unknown and never seen; a sensor with neither sensor_id nor sensorId is filed under `undefined` |
| Status.IdlessSensorMakesCritical | backend/src/services/status.service.js:519-535 | registering one sensor with neither id tracks it under `undefined` as the only sensor, unknown, so the system summary reads critical |
| Status.StatusService.AddHeartbeatHistory | backend/src/services/status.service.js:250-265 | appends one heartbeat to that sensor's history and keeps the newest heartbeatHistorySize |
| Status.StatusService.RecordSensorHeartbeat | backend/src/services/status.service.js:169-208 | the sensor's entry becomes SensorHeartbeatEntry, the heartbeat is logged, gateways are untouched, and the recovery event fires iff the previous status was warning or offline |
| Status.StatusService.RecordGatewayHeartbeat | backend/src/services/status.service.js:213-245 | the gateway becomes online and seen now, sensorsRelayed defaults to 0, sensors are untouched, and the recovery event fires iff it was warning or offline |
| Status.StatusService.CheckAllStatus | backend/src/services/status.service.js:270-348 | every sensor and gateway is swept, and the change events are exactly the entities whose status changed |
| Status.StatusService.SweepSensors | backend/src/services/status.service.js:277-314 | the loop leaves every sensor swept and reports exactly the changed ones |
| Status.StatusService.SweepGateways | backend/src/services/status.service.js:317-347 | the loop leaves every gateway swept and reports exactly the changed ones |
| Status.StatusService.GetSensorStatus | backend/src/services/status.service.js:353-375 | an id never seen is reported unknown; otherwise the entry, its history, and elapsed whole seconds within half a second of the exact value when it was ever seen |
| Status.StatusService.GetSystemStatusSummary | backend/src/services/status.service.js:431-470 | the totals are the entity counts, the four counts add up to them, and the verdict is SystemHealth |
| Status.StatusService.UpdateConfig | backend/src/services/status.service.js:94-137 | each timeout changes only to a present positive value, the history size never changes, and positive settings stay positive |
| Status.StatusService.ClearSensorStatus | backend/src/services/status.service.js:499-503 | removes only that sensor's entry and history |
| Status.StatusService.RegisterKnownSensors | backend/src/services/status.service.js:519-535 | the sensors become RegisterAll of the list: existing entries are never overwritten, and an id-less sensor is filed under `undefined` |
| Status.StatusService.SimulateSensorOnline | backend/src/services/status.service.js:560-569 | records a heartbeat with mac `simulated`, rssi −50 and battery 5000 as defaults and returns the sensor's view, now online |
| StatusController.AppliedTimeoutInRange | backend/src/controllers/status.controller.js:178-196 | a timeout that passes the handler's check and the service's positive filter lies in [10, 86400] |
| StatusController.UpdateStatusConfig | backend/src/controllers/status.controller.js:166-221 | 400 iff a present sensorTimeoutSec or gatewayTimeoutSec lies outside [10, 86400], and then the config is untouched; otherwise the service's updateConfig is applied to all four fields (warningThresholdSec and checkIntervalSec unchecked) and returned |
| StatusController.RegisterKnownSensors | backend/src/controllers/status.controller.js:274-304 | registers the body's list (an id-less sensor under `undefined`), or the five default sensors when it names none, without overwriting any existing entry, and reports the list's length |
| StatusController.DefaultIds | backend/src/controllers/status.controller.js:279-293 | the default list names SEN_CON_01, SEN_CAV_01, SEN_B03_01, SEN_IE01_01 and SEN_IE02_01 |
| StatusController.SimulateSensor | backend/src/controllers/status.controller.js:316-345 | 400 iff sensor_id is missing or empty, and then nothing changes; otherwise the sensor is online, seen now, with rssi −50 and battery 5000 as defaults, and its view is returned |
| Metrics.RankIndex | backend/src/services/metrics.service.js:89-91 | `max(0, ceil(p/100·n) − 1)` is a valid index, the least one whose rank covers p percent of the samples |
| Metrics.RankIndexMonotone | backend/src/services/metrics.service.js:89-91 | a higher percentile never picks an earlier index |
| Metrics.CalculatePercentiles | backend/src/services/metrics.service.js:75-99 | zeros and no count for no samples; otherwise min ≤ p50 ≤ p95 ≤ p99 ≤ max, every sample lies between min and max, each reported statistic is one of the samples, and the count is the number of samples |
| Metrics.Percentile | backend/src/services/metrics.service.js:83-90 | the percentile is one of the sorted samples; the 0th is the first and the 100th the last |
| Metrics.SortedStats | backend/src/services/metrics.service.js:80-97 | on the sorted copy the three percentiles lie in order between its ends, which bound every sample, and every element is a sample |
| Metrics.PercentilesOrdered | backend/src/services/metrics.service.js:89-91 | on a sorted sequence the 50th, 95th and 99th percentiles are in order between its first and last element |
| Metrics.SortedSpansSamples | backend/src/services/metrics.service.js:80-85 | a sorted permutation of the samples holds exactly the samples between its first and last element |
| Metrics.PercentilesOrderIndependent | backend/src/services/metrics.service.js:80 | the statistics depend only on the multiset of latencies recorded |
| Metrics.ErrorRate | backend/src/services/metrics.service.js:165-167 | 0 for no requests, and within [0, 100] when errors do not exceed requests |
| Metrics.PercentRounding | backend/src/services/metrics.service.js:165-167 | a share of at most all requests, rounded to 2 decimals, stays within [0, 100] |
| Metrics.UnsortedStats | backend/src/services/metrics.service.js:155-170 | one entry per endpoint of the map's insertion order, each built from that endpoint's record |
| Metrics.AlertsFor | backend/src/services/metrics.service.js:257-323 | at most five alerts, and each kind is raised exactly when its rule holds: error rate above 1 %, p95 above 500 ms, waiting + active above 40, telemetry failure rate above 5 %, more than 5 minutes since the last reading |
| Metrics.MetricsService.CheckAlerts | backend/src/services/metrics.service.js:257-323 | on the service's own counters: at most five alerts; a high error rate iff the overall error rate exceeds 1%, high latency iff the recorded p95 exceeds 500 ms, a full queue iff more than 40 jobs wait or run, a high failure rate iff over 5% of received readings failed, no recent readings iff the last one is more than 5 minutes old |
| Metrics.Bump | backend/src/services/metrics.service.js:104-128 | one more request, one more error iff the status is at least 400, and the latency appended unless it is 0 or missing, keeping the newest 100 |
| Metrics.EndpointsValidStep | backend/src/services/metrics.service.js:104-128 | one request keeps every endpoint record within its cap and with no more errors than requests |
| Metrics.MetricsService.RecordTelemetryReceived | backend/src/services/metrics.service.js:42-45 | totalReceived grows by one and the last reception time is now |
| Metrics.MetricsService.RecordTelemetryProcessed | backend/src/services/metrics.service.js:50-53 | totalProcessed grows by one and the last processing time is now |
| Metrics.MetricsService.RecordTelemetryFailed | backend/src/services/metrics.service.js:58-60 | totalFailed grows by one |
| Metrics.MetricsService.RecordLatency | backend/src/services/metrics.service.js:65-70 | the sample buffer holds the newest at most 1000 samples, the oldest dropped first |
| Metrics.MetricsService.RecordEndpointRequest | backend/src/services/metrics.service.js:104-128 | the `method path` endpoint is created on first sight, then updated as Bump says; no other endpoint changes |
| Metrics.MetricsService.RecordError | backend/src/services/metrics.service.js:133-146 | the total and the per-type count grow by one and the error becomes the last error |
| Metrics.MetricsService.GetEndpointStats | backend/src/services/metrics.service.js:151-173 | one entry per endpoint, a permutation of the unsorted statistics, ordered by request count descending, each error rate in [0, 100] |
| Metrics.MetricsService.EndpointStatsFacts | backend/src/services/metrics.service.js:155-170 | every reported entry is the statistics of a recorded endpoint |
| Metrics.MetricsService.Reset | backend/src/services/metrics.service.js:344-359 | every counter, map and buffer returns to the empty initial state |
| Alerts.NotifyAll | backend/src/services/alert.service.js:51-64 | the history only grows at its end, by at most one record per alert, each notified now and of a type with no record under five minutes old before the call, no two of one type; afterwards every alert's type has a recent record, and every appended record carries one of the alerts |
| Alerts.RecentPrefix | backend/src/services/alert.service.js:53-56 | a recent record found before the loop appended records is still found after |
| Alerts.CleanKeepsNewest | backend/src/services/alert.service.js:103-110 | at most 100 records remain, drawn from the history; a history within the bound is unchanged, a longer one keeps exactly 100, and no dropped record is newer than a kept one |
| Alerts.Clean | backend/src/services/alert.service.js:103-110 | a history of up to 100 records is kept as it is, a longer one is cut to exactly 100, and every kept record comes from the history |
| Alerts.SortedSplit | backend/src/services/alert.service.js:106-108 | in a newest-first sequence nothing after a cut is newer than anything before it |
| Alerts.SliceEnd | backend/src/services/alert.service.js:118 | `slice(0, limit)` ends at the limit capped by the length, counting from the end for a negative limit |
| Alerts.Last24h | backend/src/services/alert.service.js:126-128 | exactly the records less than a day old |
| Alerts.CountType | backend/src/services/alert.service.js:135-138 | a type has a positive count iff some record has that type, and no count exceeds the records |
| Alerts.CountStep | backend/src/services/alert.service.js:136-138 | counting one more record keeps the tally equal to the per-type count of the records seen, with exactly the types seen as keys |
| Alerts.LevelsWithinDay | backend/src/services/alert.service.js:130-133 | error and warning counts together never exceed the day's records |
| Alerts.AlertService.NotifyAlert | backend/src/services/alert.service.js:76-98 | exactly one record is appended, with notified true and the current time |
| Alerts.AlertService.CleanHistory | backend/src/services/alert.service.js:103-110 | the history becomes Clean of the old history (see CleanKeepsNewest) |
| Alerts.AlertService.CheckAndNotify | backend/src/services/alert.service.js:45-71 | the check time is now, and the history becomes NotifyAll of the alerts then trimmed |
| Alerts.AlertService.RecentIn | backend/src/services/alert.service.js:53-56 | the search finds a record iff a record of that type is less than five minutes old |
| Alerts.AlertService.GetHistory | backend/src/services/alert.service.js:115-119 | the stored history is sorted newest first in place (a permutation of the old one), and its first `limit` records, 50 by default, are returned |
| Alerts.AlertService.GetStats | backend/src/services/alert.service.js:124-147 | the total, and over the last 24 hours the record count, the error and warning counts and a per-type count holding exactly the types present |
| Export.Escape | backend/src/services/export.service.js:23-27 | a safe string is kept as it is; any other is wrapped in quotes |
| Export.EscapeIdentityIff | backend/src/services/export.service.js:23-27 | escaping leaves a string unchanged exactly when it holds no ',', '"' or '\n' |
| Export.Labels | backend/src/services/export.service.js:10 | one header field per column, in column order, the label or else the key |
| Export.Cells | backend/src/services/export.service.js:14-29 | one field per column, in column order, each the formatted and escaped value |
| Export.Lines | backend/src/services/export.service.js:13-31 | one line per data row, its fields joined by ',' |
| Export.DoubledParses | backend/src/services/export.service.js:25 | the quoted body with doubled quotes reads back, up to its closing quote, as the original string |
| Export.EscapeParses | backend/src/services/export.service.js:23-27 | an escaped field followed by a separator or the end reads back as the string: quoting is reversible |
| Export.RecordParses | backend/src/services/export.service.js:14-30 | a record of escaped fields joined by ',' reads back as its fields |
| Export.DocumentParses | backend/src/services/export.service.js:33 | records of escaped fields, one per line joined by '\n', read back as the records |
| Export.CellIsEscape | backend/src/services/export.service.js:23-29 | a string field is its escaping, and an absent value becomes the empty field |
| Export.Table | backend/src/services/export.service.js:10-31 | the header record is the labels, and each data row becomes one record of one field per column |
| Export.ExportParses | backend/src/services/export.service.js:7-38 | a CSV reader recovers the header labels and every row's fields in column order from the export, whenever the labels are safe and every value is a string, absent, or a safely shown value |
| Export.ExportToCSV | backend/src/services/export.service.js:7-38 | the text starts with the header line; with no data it is the header line alone, and otherwise a '\n' follows the header |
| Schema.ParseMac | backend/src/schemas/telemetry.schema.js:4 | bytes are produced exactly for six groups of two hexadecimal digits of either case separated by ':', six of them, each below 256 |
| Schema.IsoShapeLengths | backend/src/schemas/telemetry.schema.js:7 | a timestamp of the accepted shape has 19, 20, 23 or 24 characters |
| Schema.ToIsoStringShape | backend/src/schemas/telemetry.schema.js:7-12 | whatever `toISOString` writes for years 0–9999 has the accepted shape |
| Schema.InfinityAtBounds | backend/src/schemas/telemetry.schema.js:30-35 | an infinite uptime passes `nonnegative()`, while an infinite battery of either sign fails its bounds |
| Schema.ManualVariablesAreLabels | backend/src/schemas/telemetry.schema.js:22-44 | every manual variable is a telemetry label, and temperatura_c is a label with no manual form |
| Schema.Utf16Length | backend/src/schemas/telemetry.schema.js:50 | the length zod's `max(500)` bounds counts UTF-16 code units: at least one and at most two per character |
| Schema.BmpUtf16Length | backend/src/schemas/telemetry.schema.js:50 | on text without characters above U+FFFF the UTF-16 length is the character count |
| Schema.AstralCharCountsTwice | backend/src/schemas/telemetry.schema.js:66 | a character above U+FFFF counts as two units |
| Schema.ValidateCalibration | backend/src/schemas/telemetry.schema.js:53-67 | a calibration is accepted iff sensor_id is non-empty, both readings are numbers, the user id is a positive integer, tipo is manual or automatica when given, and observacao has at most 500 UTF-16 code units; the result defaults tipo to manual and keeps the values |
| TelemetryController.Identify | backend/src/services/sensor.service.js:25-79 | no row is found iff no row has this node's MAC, this variable and status `ativo`; a found row is one of them |
| TelemetryController.ById | backend/src/services/sensor.service.js:153-186 | no row is found iff no row has this sensor id; a found row has it, whatever its status |
| TelemetryController.NewJob | backend/src/services/queue.service.js:104-108 | a `distance_cm` job gets priority 1 and every other job priority 2 |
| TelemetryController.Dispatch.Enqueue | backend/src/services/queue.service.js:104-118 | with the queue up the job is appended to the queue; with it down the job goes to inline compression when the caller asks for the fallback, and to neither otherwise |
| TelemetryController.Status | backend/src/controllers/telemetry.controller.js:75-121 | the status is below 400 exactly when the answer is not a validation failure, an unknown sensor or a server error |
| TelemetryController.FormatDetection | backend/src/controllers/telemetry.controller.js:27 | a body with both `mac` and `type` is individual whatever else it holds; one missing either is aggregated |
| TelemetryController.Convert | backend/src/controllers/telemetry.controller.js:98-109 | a `distance_cm` value is divided by 100 with unit cm; any other value is kept with unit boolean |
| TelemetryController.ValidateIndividual | backend/src/controllers/telemetry.controller.js:71-82 | the intended individual validator: a body is accepted iff mac, type and a finite value are present and battery, rssi and uptime, when present, are finite; the result carries exactly those members |
| TelemetryController.ReceiveIndividualLinked | backend/src/controllers/telemetry.controller.js:1-198 | with `validateIndividualTelemetry` missing from the schema module's exports every request ends in a server error with nothing stored; with it, the handler has ReceiveIndividual's effect on the validator's verdict |
| TelemetryController.IndividualValidatorMissing | backend/src/schemas/telemetry.schema.js:9-79 | the schema module does not export `validateIndividualTelemetry`, and the error the handler rethrows is answered 500 |
| TelemetryController.ReceiveIndividual | backend/src/controllers/telemetry.controller.js:68-198 | 400 for a rejected packet, 500 when the sensor lookup throws and 404 for an unknown sensor, with nothing stored; a duplicate is answered 200 with nothing inserted or queued; otherwise one raw row with the converted value and the packet's meta is appended, then the job is queued, or on a queue failure a `distance_cm` reading alone goes to inline compression; an insert that throws answers 500 before anything is queued |
| TelemetryController.KnownItems | backend/src/controllers/telemetry.controller.js:220-229 | the known readings are at most as many as the packet's readings |
| TelemetryController.KnownItemsSound | backend/src/controllers/telemetry.controller.js:220-229 | every known reading is one of the packet's and carries the sensor row its label identifies |
| TelemetryController.KnownItemsSnoc | backend/src/controllers/telemetry.controller.js:220-229 | one more reading in the packet adds its known entry, if any, at the end, in packet order |
| TelemetryController.AggregatedRows | backend/src/controllers/telemetry.controller.js:231-247 | one raw row per known reading, in order, numbered consecutively |
| TelemetryController.AggregatedJobs | backend/src/controllers/telemetry.controller.js:250-256 | one job per known reading, in order, with the reading's value and label |
| TelemetryController.ReceiveAggregated | backend/src/controllers/telemetry.controller.js:201-308 | 400 with nothing stored for a packet the schema rejects; otherwise the readings are walked in packet order, each known one stored and handed on; when a lookup or an insert throws the answer is 500 and the rows and jobs of the readings before it stay, else the answer counts the known readings |
| TelemetryController.StoreKnown | backend/src/controllers/telemetry.controller.js:220-283 | after the loop the raw table holds, at its end, one row per reading AggregatedRun stores, and each of them is queued, or handed to inline compression when the queue is down; false exactly when a lookup or insert threw, with what was stored before it kept |
| TelemetryController.StoreOne | backend/src/controllers/telemetry.controller.js:220-256 | one turn over one reading: it fails, changing nothing, exactly when AggregatedRun stops at this reading; otherwise an unknown sensor is skipped and a known one adds its row and job, and the run goes on from the next reading |
| TelemetryController.AggregatedRun | backend/src/controllers/telemetry.controller.js:220-306 | the readings the loop stores before a lookup or insert throws (every known one when none does) are at most as many as the packet's readings |
| TelemetryController.RunWithoutFaults | backend/src/controllers/telemetry.controller.js:220-283 | with no call throwing and the store up every known reading is stored and the answer is not 500 |
| TelemetryController.RunIsKnownPrefix | backend/src/controllers/telemetry.controller.js:220-306 | what is stored is always a prefix of the known readings, all of them unless the run stopped in error; with the store down and no lookup throwing nothing is stored and the answer is 500 exactly when some reading is known |
| TelemetryController.SecondInsertFails | backend/src/controllers/telemetry.controller.js:232-306 | two known readings whose second insert throws leave the first reading stored and answer 500 |
| TelemetryController.ResendStoresPrefixAgain | backend/src/controllers/telemetry.controller.js:220-283 | a resend without faults after a partial failure stores again the readings the failed request already stored, so they are duplicated |
| TelemetryController.HandedStep | backend/src/controllers/telemetry.controller.js:231-256 | one more known reading adds one row and one job, each at the end |
| TelemetryController.KnownPrefixGrowsOnly | backend/src/controllers/telemetry.controller.js:220-229 | a known reading in a prefix of the packet makes the whole packet's known list non-empty |
| TelemetryController.AggregatedValuesAsSent | backend/src/controllers/telemetry.controller.js:231-247 | for a valid packet every stored reading carries the finite value the node sent |
| TelemetryController.Handle | backend/src/controllers/telemetry.controller.js:27-34 | a body is routed by its format and has exactly the effect of that handler, under the same database faults, on the response, the duplicate store, the raw table and the queue and inline lists; the aggregated path never touches the duplicate filter and answers 400 exactly when the schema rejects the packet |
| TelemetryController.RecordOutcome | backend/src/controllers/telemetry.controller.js:36-47 | a status below 400 counts as processed and one from 400 up as failed; only the individual path's rethrown error counts as a `telemetry_error`; the endpoint gets the status |
| TelemetryController.ReceiveTelemetry | backend/src/controllers/telemetry.controller.js:19-62 | every request is counted received, and exactly one of processed and failed; the request has exactly the effect of the handler its format selects on the duplicate store, the raw table and the queue and inline lists; an aggregated request leaves the duplicate filter alone |
| TelemetryController.RetryAfterFailedInsertIsDropped | backend/src/controllers/telemetry.controller.js:113-147 | once a reading's duplicate key is stored, a resend in the same second within two seconds is answered as a duplicate even when the first insert failed |
| TelemetryController.LevelToDistance | backend/src/controllers/telemetry.controller.js:345-356 | the distance solves level = altura − distance + offset, with `altura_cm` defaulting to 400 and the offset to `offset_cm`, then `hsensor_cm`, then 20 |
| TelemetryController.LevelToDistanceInvolutive | backend/src/controllers/telemetry.controller.js:345-356 | the conversion is its own inverse, and with no parameters level 0 is distance 420 |
| TelemetryController.ManualValue | backend/src/controllers/telemetry.controller.js:341-356 | a `nivel_cm` reading for a `distance_cm` sensor is stored as the converted distance; every other reading keeps its variable and value |
| TelemetryController.ReceiveManualReading | backend/src/controllers/telemetry.controller.js:314-395 | 400 for an invalid reading, 500 when the sensor lookup throws, 404 for an unknown sensor id, otherwise exactly one raw row with the converted value, the unit by the variable sent and the given or current time, unless the insert throws (500); nothing is stored on any other answer |
| TelemetryController.CalibrationStore.UpdateSensorOffset | backend/src/services/sensor.service.js:192-206 | the named sensor's offset becomes the given one and no other row changes |
| TelemetryController.CalibrationStore.ReceiveCalibration | backend/src/controllers/telemetry.controller.js:402-483 | 400 for an invalid calibration, 500 when the lookup throws, 404 for an unknown sensor; otherwise one calibration row with offset reference − sensor value is appended unless its insert throws, and the offset becomes the sensor's unless the update throws afterwards, in which case the answer is 500 and the row stays |
| TelemetryController.CalibrationHitsReference | backend/src/controllers/telemetry.controller.js:437-462 | after calibration the sensor's adjusted reading of the calibrated raw value equals the reference value |
| SerialBridge.PassedLines | backend/src/services/serial-bridge.js:118-127 | a line the filter lets through has at least ten characters and none of the `I (`, `W (`, `E (` prefixes |
| SerialBridge.SegmentEnd | backend/src/services/serial-bridge.js:135 | the end of the stretch `.` can match: no line terminator before it, and a terminator at it unless it is the end of the line |
| SerialBridge.LastClose | backend/src/services/serial-bridge.js:135 | a found index lies in the range and holds `}` |
| SerialBridge.LastCloseIs | backend/src/services/serial-bridge.js:135 | a `}` with none after it in the range is the one found |
| SerialBridge.NoLastClose | backend/src/services/serial-bridge.js:135 | a range without `}` gives none |
| SerialBridge.MatchFrom | backend/src/services/serial-bridge.js:135 | a match starts at a `{` and ends just after a `}`, inside the line |
| SerialBridge.JsonCandidate | backend/src/services/serial-bridge.js:132-138 | the candidate is the whole line or a stretch that starts with `{` and ends with `}` |
| SerialBridge.CandidateIsOutermostBraces | backend/src/services/serial-bridge.js:132-138 | on a line without terminators the candidate runs from the first `{` to the last `}` when that comes after it, and is the whole line otherwise |
| SerialBridge.CandidateWithoutClose | backend/src/services/serial-bridge.js:135-138 | with no `}` after the first `{` the whole line is parsed |
| SerialBridge.CandidateWithBraces | backend/src/services/serial-bridge.js:135-138 | with a `}` after the first `{`, the candidate is exactly the first `{` through the last `}` |
| SerialBridge.MatchAtOpen | backend/src/services/serial-bridge.js:135 | the match at a `{` runs greedily to the last `}` after it |
| SerialBridge.NoOpenNoMatch | backend/src/services/serial-bridge.js:135 | with no `{` from a position on, the search from there finds nothing |
| SerialBridge.SkipToFirstOpen | backend/src/services/serial-bridge.js:135 | the search from any position before the first `{` gives the match at that `{` |
| SerialBridge.NoCloseNoMatch | backend/src/services/serial-bridge.js:135 | with no `}` from a position on, the search from there finds nothing |
| SerialBridge.NoTerminators | backend/src/services/serial-bridge.js:58-59 | a line with no line terminator is one segment |
| SerialBridge.Accepted | backend/src/services/serial-bridge.js:141-152 | an object is forwarded iff it has a truthy `mac` and either a `distance_mm` member or truthy `type` and a `value`, and it is forwarded unchanged; a parse error or a non-object is dropped |
| SerialBridge.FormatEdges | backend/src/services/serial-bridge.js:146-147 | a null `distance_mm` still selects the AGUADA-1 format, an empty MAC selects neither, and a `type` of 0 does not select the old format |
| SerialBridge.Bridge.constructor | backend/src/services/serial-bridge.js:12-31 | counters start at zero with no last packet, disconnected, and the port defaults to `/dev/ttyACM0` |
| SerialBridge.Bridge.HandleIncomingData | backend/src/services/serial-bridge.js:116-209 | a filtered line or a rejected object changes nothing; an accepted one is counted at `now`, stamped, and then counted by SendToBackend: as sent for any 2xx answer, and as an error unless a 2xx body was read |
| SerialBridge.Bridge.SendToBackend | backend/src/services/serial-bridge.js:185-209 | sent grows by one exactly for a 2xx answer; errors grows by one exactly when the request fails, the status is not 2xx, or a 2xx body is not JSON or is `null`; such a 2xx counts both |
| SerialBridge.Bridge.OnPortError | backend/src/services/serial-bridge.js:63-65 | a port error counts one error |
| SerialBridge.Bridge.SetConnected | backend/src/services/serial-bridge.js:51-75 | opening sets the connected flag and closing clears it |
| SerialBridge.Bridge.GetStats | backend/src/services/serial-bridge.js:225-232 | the counters and flags as they are, with the uptime the whole seconds since start |
| SerialBridge.GatewayLines | backend/src/services/serial-bridge.js:118-138 | a framed data line yields its JSON, and a boot message is dropped |
| GatewayQueue.EnqueueShape | firmware/gateway_00/main/queue_manager.cpp:9-34 | an enqueue grows the queue by one unless it is full, never takes it past its capacity, keeps the old messages less the front one when full, and puts the new message at the front when prioritised and at the back otherwise, the rest in order |
| GatewayQueue.KeptMultiset | firmware/gateway_00/main/queue_manager.cpp:10-14 | a full queue loses its front message and only that one |
| GatewayQueue.FullQueueDropsFrontNotOldest | firmware/gateway_00/main/queue_manager.cpp:10-28 | with room for two, a priority message queued after a normal one is the one the next enqueue drops, although the normal one is older |
| GatewayQueue.RetryLimit | firmware/gateway_00/main/queue_manager.cpp:59-71 | a retry adds one try and puts the message back iff it is still below RETRY_ATTEMPTS |
| GatewayQueue.ThreeTriesThenDropped | firmware/gateway_00/main/queue_manager.cpp:59-71 | a fresh message is requeued after its first and second failure and dropped after the third |
| GatewayQueue.QueueManager.constructor | firmware/gateway_00/main/queue_manager.cpp:4-7 | an empty queue of the given capacity with every counter zero |
| GatewayQueue.QueueManager.Enqueue | firmware/gateway_00/main/queue_manager.cpp:9-34 | the queue becomes the enqueued one, the drop count grows exactly when it was full, the received count always grows (32-bit), and the answer is true |
| GatewayQueue.QueueManager.Dequeue | firmware/gateway_00/main/queue_manager.cpp:36-45 | nothing from an empty queue; otherwise its front message, removed, which is below the retry limit |
| GatewayQueue.QueueManager.IncrementRetry | firmware/gateway_00/main/queue_manager.cpp:59-71 | the message gets one more try and a new stamp; it is appended while below the limit and otherwise counted as dropped |
| GatewayQueue.QueueManager.Clear | firmware/gateway_00/main/queue_manager.cpp:73-76 | the queue is emptied and the counters are kept |
| GatewayQueue.QueueManager.IncrementSent | firmware/gateway_00/main/queue_manager.h:39 | the sent count goes up by one (32-bit) |
| GatewayQueue.QueueManager.ProcessOne | firmware/gateway_00/main/gateway_io.cpp:79-145 | the front message is taken; when sent it is removed and the sent count goes up by one (wrapping at 2^32); when not, it is removed and its retried copy appended while under the retry limit, or dropped with the drop count up by one; the drop count moves only then; the queue never grows and stays within its capacity |
| GatewayQueue.RetryIgnoresCapacity | firmware/gateway_00/main/queue_manager.cpp:59-66 | a failed message requeued into a full queue grows it past its capacity |
| GatewayRegistry.SweepOnlyClears | firmware/gateway_00/main/node_registry.cpp:53-63 | a sweep keeps every entry and every field but the flag, clears exactly the flags of nodes silent for more than NODE_TIMEOUT_SEC, and leaves every flagged node within the timeout |
| GatewayRegistry.OnlineAmongGrows | firmware/gateway_00/main/node_registry.cpp:87-95 | counting one more entry adds one exactly when its flag is set |
| GatewayRegistry.QueryAndFlagDisagreeAtTimeout | firmware/gateway_00/main/node_registry.cpp:36-57 | a node heard exactly 300 s ago is offline to isNodeOnline but keeps its flag through a sweep |
| GatewayRegistry.NodeRegistry.constructor | firmware/gateway_00/main/node_registry.cpp:4 | an empty registry |
| GatewayRegistry.NodeRegistry.RegisterNode | firmware/gateway_00/main/node_registry.cpp:6-20 | the entry for the MAC is created or overwritten: seen now, no messages, RSSI 0, online |
| GatewayRegistry.NodeRegistry.UpdateLastSeen | firmware/gateway_00/main/node_registry.cpp:22-34 | a known node is seen now with this RSSI, one more message and online; an unknown one is registered as unknown without its RSSI; no other entry changes |
| GatewayRegistry.NodeRegistry.IsNodeOnline | firmware/gateway_00/main/node_registry.cpp:36-43 | true iff the node is known and was heard less than NODE_TIMEOUT_SEC seconds ago by 32-bit elapsed time, whatever its flag |
| GatewayRegistry.NodeRegistry.GetNode | firmware/gateway_00/main/node_registry.cpp:45-51 | the entry iff the MAC is known |
| GatewayRegistry.NodeRegistry.CheckOfflineNodes | firmware/gateway_00/main/node_registry.cpp:53-63 | the registry becomes the swept one |
| GatewayRegistry.NodeRegistry.GetOnlineCount | firmware/gateway_00/main/node_registry.cpp:87-95 | the number of flagged entries, never more than the total |
| GatewayRegistry.NodeRegistry.GetTotalCount | firmware/gateway_00/main/node_registry.h:34 | the number of registered MACs |
| GatewayRegistry.ReportedNodeOnline | firmware/gateway_00/main/node_registry.cpp:22-63 | a node that has just reported is online by isNodeOnline and keeps its flag through a sweep at the same time |
| Protocol.Crc16 | firmware/node_sensor_v2/components/aguada_protocol/aguada_protocol.c:225-246 | the byte loop and the eight-step bit loop compute the CRC of the bytes: each byte XORed into the register, then eight reflected shifts by 0xA001, from 0xFFFF |
| Protocol.CrcSnoc | firmware/node_sensor_v2/components/aguada_protocol/aguada_protocol.c:229-243 | the CRC of the data and one more byte is that byte folded into the data's CRC |
| Protocol.CrcCheckValue | firmware/node_sensor_v2/components/aguada_protocol/aguada_protocol.c:225-246 | the nine bytes "123456789" give 0x4B37, the CRC-16/MODBUS check value |
| Protocol.CrcBytesRoundTrip | firmware/node_sensor_v2/components/aguada_protocol/aguada_protocol.h:83-97 | the stored low/high bytes read back as the CRC |
| Protocol.CrcResidue | firmware/node_sensor_v2/components/aguada_protocol/aguada_protocol.c:225-246 | running the CRC over data followed by its own CRC, low byte first, ends at zero |
| Protocol.OneByteChangesCrc | firmware/node_sensor_v2/components/aguada_protocol/aguada_protocol.c:225-246 | changing any one byte of the data changes its CRC |
| Protocol.CrcByteInjective | firmware/node_sensor_v2/components/aguada_protocol/aguada_protocol.c:231-242 | folding in one byte is injective in the register and in the byte |
| Protocol.VarCodeNames | firmware/node_sensor_v2/components/aguada_protocol/aguada_protocol.c:178-194 | the four type names get distinct non-zero codes that name them back, and any other name leaves the zeroed 0 |
| Protocol.Covered | firmware/node_sensor_v2/components/aguada_protocol/aguada_protocol.c:206-208 | the bytes the CRC covers are the first 32 of the record, starting with the magic byte |
| Protocol.Image | firmware/node_sensor_v2/components/aguada_protocol/aguada_protocol.h:83-97 | the record is 34 bytes: the covered ones, then the CRC low byte first |
| Protocol.BuildBinaryV2 | firmware/node_sensor_v2/components/aguada_protocol/aguada_protocol.c:164-211 | a missing packet or record is an invalid argument that writes nothing; otherwise the record is the zeroed, filled and checksummed one |
| Protocol.BuiltVerifies | firmware/node_sensor_v2/components/aguada_protocol/aguada_protocol.c:172-222 | a built record has the magic byte, version 2, the telemetry type, the type's code, zero reserved bytes and the packet's readings; it passes verification and its whole CRC is zero |
| Protocol.VerifyBinary | firmware/node_sensor_v2/components/aguada_protocol/aguada_protocol.c:213-224 | no record, or one whose first byte is not 0xAA, fails verification (BuiltVerifies and CorruptedRecordRejected state the CRC half) |
| Protocol.CorruptedRecordRejected | firmware/node_sensor_v2/components/aguada_protocol/aguada_protocol.c:213-223 | any one corrupted byte of a built record, the CRC bytes included, makes verification fail |
| Protocol.MacToString | firmware/node_sensor_v2/components/aguada_protocol/aguada_protocol.c:248-253 | the text is 17 characters with ':' after every pair |
| Protocol.MacDigits | firmware/node_sensor_v2/components/aguada_protocol/aguada_protocol.c:248-253 | group g of the text is `%02X` of byte g: the upper-case digits of its high and low halves, which read back as those halves |
| Protocol.ScanFrom | firmware/node_sensor_v2/components/aguada_protocol/aguada_protocol.c:255-260 | groups before the current one are kept as they were |
| Protocol.MacRoundTrip | firmware/node_sensor_v2/components/aguada_protocol/aguada_protocol.c:248-260 | the text of any MAC passes the backend's node_mac schema and reads back as the same bytes, both there and through string_to_mac, whatever the destination held |
| Protocol.StringToMac | firmware/node_sensor_v2/components/aguada_protocol/aguada_protocol.c:255-260 | a text whose first group does not scan leaves the MAC as it was; each byte whose group does not scan is kept, and each byte whose group and all groups before it scan is that group's value |
| Protocol.GroupOfMac | firmware/node_sensor_v2/components/aguada_protocol/aguada_protocol.c:248-260 | every two-digit group of a MAC's text reads back as its byte |
| Protocol.BuildJson | firmware/node_sensor_v2/components/aguada_protocol/aguada_protocol.c:14-106 | a missing packet or buffer is an invalid argument; a failed render is out of memory; a text that does not fit with its terminator is an invalid size and leaves the buffer alone; otherwise the text and a NUL are at the front and the rest is unchanged |
| NodeMain.Packets | firmware/node_sensor_v2/main/main.c:74-90 | one packet per send, in order, each built by send_telemetry's rule |
| NodeMain.DeadbandIff | firmware/node_sensor_v2/main/main.c:64-69 | a positive reading is sent exactly when nothing was sent before or it is at least 2 cm (200 in cm×100) from the last distance sent, and is sent as read |
| NodeMain.TimeoutSentOnce | firmware/node_sensor_v2/main/main.c:131-139 | a timeout sends 0 unless 0 was the last distance sent; a second timeout sends nothing and the next valid reading is sent |
| NodeMain.DigitalOnChange | firmware/node_sensor_v2/main/main.c:150-169 | a digital input is sent on its first reading and afterwards exactly when it changed; re-reading the same level sends nothing |
| NodeMain.FirstCycleSendsAll | firmware/node_sensor_v2/main/main.c:56-59 | the first cycle sends all four variables with the values read, the distance as 0 on a timeout |
| NodeMain.RepeatIsSilent | firmware/node_sensor_v2/main/main.c:122-169 | a cycle that reads what the previous one read sends nothing |
| NodeMain.NeverSendsOutOfRange | firmware/node_sensor_v2/main/main.c:140-148 | read_all never yields the out-of-range code, so the distance 1 is never sent |
| NodeMain.SensorTask.constructor | firmware/node_sensor_v2/main/main.c:55-59 | nothing sent yet and a zeroed record |
| NodeMain.SensorTask.SendTelemetry | firmware/node_sensor_v2/main/main.c:74-90 | one packet more for the radio, with the fixed 5000 mV battery, −50 dBm RSSI and uptime in whole seconds |
| NodeMain.SensorTask.SendDistance | firmware/node_sensor_v2/main/main.c:122-148 | at most one distance packet, as the distance rule says, and the last distance sent moves on with it |
| NodeMain.SensorTask.SendDigital | firmware/node_sensor_v2/main/main.c:150-169 | at most one packet for the input, and the new last-sent level |
| NodeMain.SensorTask.Cycle | firmware/node_sensor_v2/main/main.c:109-169 | a failed read changes nothing; otherwise the record is refreshed, a packet goes out for each changed variable in the loop's order, and the last-sent values move on |
| NodeMain.SensorTask.SendChanged | firmware/node_sensor_v2/main/main.c:122-169 | the change checks on the record just read send the cycle's packets in order and advance the last-sent values |
| NodeMain.PacketsOfReports | firmware/node_sensor_v2/main/main.c:122-169 | the packets of a cycle are those of its four branches, in order |
| NodeSensor.DistanceX100 | firmware/node_sensor_v2/components/aguada_sensor/aguada_sensor.c:145-151 | the 32-bit product over 20000 is below 2^31, so the cast to int32_t keeps it |
| NodeSensor.DistanceWithinTimeout | firmware/node_sensor_v2/components/aguada_sensor/aguada_sensor.c:145-151 | for any pulse up to 12 s the product does not wrap and the distance is exactly duration × 343 / 20000 |
| NodeSensor.ReadDistance | firmware/node_sensor_v2/components/aguada_sensor/aguada_sensor.c:107-164 | -1 exactly before init or without a completed pulse; -2 exactly for a pulse outside 20–450 cm; otherwise the pulse's distance, between 2000 and 45000 |
| NodeSensor.Readings | firmware/node_sensor_v2/components/aguada_sensor/aguada_sensor.c:173-175 | one reading per trigger, each by read_distance |
| NodeSensor.PositivesMembers | firmware/node_sensor_v2/components/aguada_sensor/aguada_sensor.c:176-178 | the kept samples are exactly the readings above zero |
| NodeSensor.PositivesStep | firmware/node_sensor_v2/components/aguada_sensor/aguada_sensor.c:176-178 | a reading is appended to the kept samples exactly when it is positive |
| NodeSensor.FilteredIsUpperMedian | firmware/node_sensor_v2/components/aguada_sensor/aguada_sensor.c:183-196 | -1 exactly for fewer than five valid samples; otherwise one of the samples, in range, and the upper median of their sorted permutation: at most half below it and at most the rest above |
| NodeSensor.Filtered | firmware/node_sensor_v2/components/aguada_sensor/aguada_sensor.c:183-196 | -1 for fewer than five valid samples, otherwise one of the samples |
| NodeSensor.ComparatorExact | firmware/node_sensor_v2/components/aguada_sensor/aguada_sensor.c:21-24 | the comparator's subtraction cannot overflow on two valid samples, so it orders them as ≤ does |
| NodeSensor.Keep | firmware/node_sensor_v2/components/aguada_sensor/aguada_sensor.c:176-178 | a positive reading is stored at the next free slot and counted; the kept prefix gains it at its end |
| NodeSensor.CollectSamples | firmware/node_sensor_v2/components/aguada_sensor/aguada_sensor.c:168-181 | after the loop the front of the buffer holds the positive readings of the triggers, in order |
| NodeSensor.ReadDistanceFiltered | firmware/node_sensor_v2/components/aguada_sensor/aguada_sensor.c:166-197 | the result is the filtered value of the positive readings |
| NodeSensor.FilteredNeverOutOfRange | firmware/node_sensor_v2/components/aguada_sensor/aguada_sensor.c:166-197 | the filtered read is -1 or a distance in range, never -2 |
| NodeSensor.ReadDigital | firmware/node_sensor_v2/components/aguada_sensor/aguada_sensor.c:199-208 | 1 exactly when initialised and the pin is high, and never more than 1 |
| NodeSensor.Sampled | firmware/node_sensor_v2/components/aguada_sensor/aguada_sensor.c:222-227 | the record holds the filtered distance, the three levels and the clock |
| NodeSensor.ReadAll | firmware/node_sensor_v2/components/aguada_sensor/aguada_sensor.c:210-234 | a missing record is an invalid argument and an uninitialised driver an invalid state, each writing nothing; otherwise the record is the sampled one |
| GatewayUsb.CString | firmware/gateway_usb/main/main.c:185-211 | the C string is the buffer's prefix before its first NUL, and holds no NUL |
| GatewayUsb.TerminatedPayload | firmware/gateway_usb/main/main.c:185-186 | a payload followed by a NUL reads back as the payload's C string whatever follows |
| GatewayUsb.RssiAppended | firmware/gateway_usb/main/main.c:192-206 | a JSON payload without `"rssi"` is printed without its last character, then `,"rssi":N}` |
| GatewayUsb.RssiKept | firmware/gateway_usb/main/main.c:208-212 | a JSON payload that names `"rssi"` is printed as it is |
| GatewayUsb.RawWrapped | firmware/gateway_usb/main/main.c:214-219 | any other payload is wrapped with the upper-case sender MAC at characters 8–24 and the payload, unescaped, after `"raw":"` |
| GatewayUsb.EveryLineNamesRssi | firmware/gateway_usb/main/main.c:192-219 | every printed line opens with a brace, holds no NUL and names `"rssi"`, whatever the packet held |
| GatewayUsb.EmittedIdempotent | firmware/gateway_usb/main/main.c:192-219 | a printed line fed back through the gateway, from any sender and with any RSSI, is printed unchanged |
| GatewayUsb.TerminateAsWritten | firmware/gateway_usb/main/main.c:60-186 | on the buffer as declared, the terminator write needs a length below 250 and then writes only that byte |
| GatewayUsb.AdmittedLengthOverruns | firmware/gateway_usb/main/main.c:48-88 | the length check admits a length whose terminator lies one past the declared buffer |
| GatewayUsb.Terminate | firmware/gateway_usb/main/main.c:186 | on a buffer one byte larger the write of the terminator is in bounds for every admitted length and changes only that byte |
| GatewayUsb.TerminatorFits | firmware/gateway_usb/main/main.c:88-186 | every admitted length fits the larger buffer with its terminator, and the payload's C string reads back |
| GatewayUsb.UsbGateway.constructor | firmware/gateway_usb/main/main.c:71-77 | an empty queue, nothing printed and every counter zero |
| GatewayUsb.UsbGateway.RecvCb | firmware/gateway_usb/main/main.c:86-113 | a length outside 1..250 is ignored and not counted; any other packet is counted and queued at the back, or counted as dropped when 30 are waiting |
| GatewayUsb.UsbGateway.SerialStep | firmware/gateway_usb/main/main.c:167-226 | with nothing queued nothing changes; otherwise the front packet is taken, its line as the format rule says printed, and counted as processed once |
| Node10.BubblePass | firmware/node_10/main/main.cpp:71-77 | one inner pass leaves a permutation of the prefix, keeps the suffix, and moves the prefix's largest element to its end |
| Node10.BubbleSort | firmware/node_10/main/main.cpp:69-78 | the array ends ascending and a permutation of what it held |
| Node10.PassExtends | firmware/node_10/main/main.cpp:70-78 | after a pass the sorted tail grows by one and nothing before it exceeds anything in it |
| Node10.CalculateMedian | firmware/node_10/main/main.cpp:64-86 | the result is the median of the first `size` values: the middle element of the sorted copy for an odd size, the mean of the two middle ones for an even size |
| Node10.VolumeMonotone | firmware/node_10/main/main.cpp:91-106 | the volume is never negative, is 0 below the sensor offset, and never falls as the level rises |
| Node10.PercentualShape | firmware/node_10/main/main.cpp:111-122 | the percentage lies in [0, 100] and never falls as the level rises; for a positive usable height it is 0 exactly up to the offset and 100 exactly from the full height on |
| Node10.CalculateVolume | firmware/node_10/main/main.cpp:91-106 | the volume is never negative and is 0 for a level below the sensor offset |
| Node10.CalculatePercentual | firmware/node_10/main/main.cpp:111-122 | the percentage lies in [0, 100]; it is 0 when the height does not exceed the offset and 100 for a level at or above a usable height |
| Node10.VolumeIsPercentOfFull | firmware/node_10/main/main.cpp:91-122 | between the offset and the full height the volume is that percentage of the full volume |
| Node10.VolumeGrowsWithDistance | firmware/node_10/main/main.cpp:157-163 | for the configured reservoir, with the median distance passed as the level, the reported volume grows as the water moves away from the sensor |
| Node10.Latest | firmware/node_10/main/main.cpp:50-52 | the window holds the last eleven readings, or all of them while fewer |
| Node10.WindowStep | firmware/node_10/main/main.cpp:130-137 | storing one reading at the index and moving it on keeps the buffer holding the latest readings in arrival order, with the full flag right |
| Node10.LatestStep | firmware/node_10/main/main.cpp:130-137 | one more reading drops the oldest of a full window and appends the new one, or just appends it |
| Node10.ReadingsBuffer.constructor | firmware/node_10/main/main.cpp:50-52 | a zeroed eleven-slot buffer, index 0, not filled |
| Node10.ReadingsBuffer.ReadSensor | firmware/node_10/main/main.cpp:127-144 | a positive distance is stored, keeping the buffer holding the latest readings with the index and full flag consistent; anything else changes nothing; the full flag is never cleared |
| Node10.ReadingsBuffer.SendTelemetry | firmware/node_10/main/main.cpp:149-163 | nothing while fewer than three readings were ever stored; otherwise the median of the latest readings with the volume and percentage computed from it |
| Dashboard.CheckSensorStatus | frontend/assets/app.js:22-35 | no timestamp is offline and not warning with an infinite elapsed time; an unparseable one is neither, with a NaN elapsed time; otherwise offline iff the elapsed time reaches the threshold and warning iff it is from two minutes up to below the threshold; never both |
| Dashboard.DefaultBands | frontend/assets/app.js:22-35 | with the default five minutes: under two minutes is fine, two to five is a warning, five or more is offline |
| Dashboard.OfflineStaysOffline | frontend/assets/app.js:22-35 | a sensor offline now is offline at every later time |
| Dashboard.NoWarningBelowTwoMinutes | frontend/assets/app.js:31-32 | a threshold of two minutes or less never raises a warning |
| Dashboard.GetReservoirConfig | frontend/assets/app.js:303-346 | a configuration exists exactly for the five known ids; each has the sensor offset 20 cm, positive height and volume, and a base area times the height equal to the maximum volume |
| Dashboard.AcceptedDistance | frontend/assets/app.js:362-375 | a distance is used iff it is present, a number and not negative, and then as given |
| Dashboard.CalculateVolumeM3 | frontend/assets/app.js:353-389 | 0 for an unknown reservoir or an unusable distance; otherwise 0 for a level at or below zero and the area times the level, capped at the maximum volume; always between 0 and the maximum |
| Dashboard.FullAtOffset | frontend/assets/app.js:377-388 | a distance equal to the sensor offset reads as the full volume |
| Dashboard.EmptyBeyondFullHeight | frontend/assets/app.js:377-382 | a distance of the full height plus the offset or more reads as empty |
| Dashboard.VolumeNonIncreasing | frontend/assets/app.js:377-388 | a larger distance never shows more water |
| Dashboard.Round2Bounds | frontend/assets/app.js:422 | rounding to two decimals keeps a percentage in [0, 100] and moves it by at most 0.005 |
| Dashboard.Round2Monotone | frontend/assets/app.js:422 | the rounding never reverses the order of two values |
| Dashboard.GetVolumePercent | frontend/assets/app.js:395-423 | 0 for an unknown reservoir or a missing, NaN, non-numeric or negative distance; otherwise within 0.005 of the volume's share of the maximum in percent, always in [0, 100] |
| Dashboard.PercentOfVolume | frontend/assets/app.js:419-422 | a volume within the maximum is its exact share before rounding, and within 0.005 of it after |
| Dashboard.PercentFullAtOffset | frontend/assets/app.js:395-423 | a distance equal to the sensor offset reads 100 % |
| Dashboard.PercentNonIncreasing | frontend/assets/app.js:395-423 | a larger distance never shows a higher percentage |
| Dashboard.GetGaugeColor | frontend/assets/app.js:428-432 | red iff the percentage is at most 20, orange iff above 20 up to 50, green iff above 50 |
| Dashboard.GaugeAtExtremes | frontend/assets/app.js:395-432 | a full reservoir shows green and an empty one red |
| ApiService.LeadingRun | frontend/assets/api-service.js:360 | the longest run of `[A-Z0-9]` at the start of the id |
| ApiService.PatternMatch | frontend/assets/api-service.js:360 | a match is a non-empty `[A-Z0-9]` prefix directly followed by `_`; no match iff no `_` follows such a prefix |
| ApiService.MapSensorToElemento | frontend/assets/api-service.js:342-367 | an id of the table maps to its element; any other id maps to its pattern capture when there is one and to itself otherwise |
| ApiService.TableNamesKnownReservoirs | frontend/assets/api-service.js:343-355 | every id of the table maps to one of the dashboard's five reservoirs |
| ApiService.MappedIsTableValueOrPrefix | frontend/assets/api-service.js:342-367 | the mapped id is one of the table's elements or a prefix of the sensor id |
| ApiService.NoMatchWithoutUnderscore | frontend/assets/api-service.js:358-366 | an id made only of `[A-Z0-9]` has no pattern match and is not in the table, so it maps to itself |
| ApiService.MapIdempotent | frontend/assets/api-service.js:342-367 | mapping a mapped id again changes nothing |
| ApiService.PatternCapturesElement | frontend/assets/api-service.js:359-362 | an element id followed by `_` and anything is captured as that element |
| ApiService.NewIdsFollowPattern | frontend/assets/api-service.js:349-362 | each new `<element>_US01` id is in the table with the value the pattern would give anyway |
| ApiService.LegacyIdsNeedTable | frontend/assets/api-service.js:344-362 | the pattern alone would map the legacy `SEN_CON_01` to `SEN`; the table maps it to `RCON` |
| ApiService.ParseValue | frontend/assets/api-service.js:372-376 | a value that is present and converts to a number is that number; null, undefined or NaN give the fallback, so a non-NaN fallback never yields NaN |
| ApiService.Fresh | frontend/assets/api-service.js:238-250 | a new record has the sensor's id, element and MAC, zero readings, battery 5000, RSSI −50 and the current time |
| ApiService.CleanName | frontend/assets/api-service.js:263 | an `IE01_` or `IE02_` prefix is removed and any other name kept |
| ApiService.UpdateElement | frontend/assets/api-service.js:258-310 | the loop over the variables applies each, in order, to the record |
| ApiService.NormalizeReadings | frontend/assets/api-service.js:214-323 | no data gives an empty result; otherwise the records the entries build, in order |
| ApiService.NormalizedKeys | frontend/assets/api-service.js:227-255 | there is one record per element id the payload names and no other |
| ApiService.ApplyVarsKeepsIdentity | frontend/assets/api-service.js:257-310 | the variables never change a record's sensor id, element id or MAC |
| ApiService.FirstSensorOwnsRecord | frontend/assets/api-service.js:237-255 | an element's record keeps the sensor id and MAC of the first sensor in the payload that maps to it |
| ApiService.ApplyVarField | frontend/assets/api-service.js:269-301 | one variable sets its own field to its parsed value and leaves the other five alone |
| ApiService.LastWriteWins | frontend/assets/api-service.js:258-301 | each of the six fields ends with the value of the last variable named for it, or keeps its value |
| ApiService.OtherNamesOnlyStamp | frontend/assets/api-service.js:269-309 | a variable with any other clean name changes at most the timestamp |
| ApiService.TimestampRule | frontend/assets/api-service.js:270-309 | a distance_cm datetime always replaces the timestamp; any other datetime only when strictly later |
| ApiService.StampNeverMovesBack | frontend/assets/api-service.js:303-309 | without a distance_cm variable the timestamp never moves back |
| ApiService.DefaultsSurvive | frontend/assets/api-service.js:247-300 | a new record's battery 5000 and RSSI −50 survive a payload that does not send them |
| ApiService.SetLocalCache | frontend/assets/api-service.js:397-409 | the cache entry holds the readings and the time they were saved |
| ApiService.GetLocalCache | frontend/assets/api-service.js:411-424 | the cached readings are returned iff an entry exists and is at most five minutes old |
| ApiService.CacheRoundTrip | frontend/assets/api-service.js:397-424 | readings saved are read back unchanged for five minutes and not after |
| ReactCalc.CalculateVolume | frontend-react/src/utils/calculations.ts:9-20 | the litres are the base area (π r² for a cylinder, length × width otherwise, absent dimensions as 0) times the level over 1000 |
| ReactCalc.VolumeAdditive | frontend-react/src/utils/calculations.ts:9-20 | the volume is linear in the level |
| ReactCalc.MissingDimensionsGiveZero | frontend-react/src/utils/calculations.ts:12-17 | with no dimensions the volume is 0 whatever the level |
| ReactCalc.NegativeLevelNegativeVolume | frontend-react/src/utils/calculations.ts:9-20 | nothing is clamped: a negative level in a real tank gives a negative volume |
| ReactCalc.AgreesWithBackend | frontend-react/src/utils/calculations.ts:9-20 | the litres are a thousand times the backend's cubic metres for the same tank |
| ReactCalc.CalculatePercentage | frontend-react/src/utils/calculations.ts:28-32 | the percentage lies in [0, 100] and is 0 for a zero height |
| ReactCalc.PercentageExactWithinHeight | frontend-react/src/utils/calculations.ts:28-32 | a level within the height is its exact share; an overfull one reads 100 and a non-positive one 0 |
| ReactCalc.PercentageMonotone | frontend-react/src/utils/calculations.ts:28-32 | for a positive height the percentage never falls as the level rises |
| ReactCalc.GetLevelColor | frontend-react/src/utils/calculations.ts:39-43 | error iff below 10, warning iff from 10 to below 30, success iff 30 or more; never info |
| ReactCalc.LevelColorMonotone | frontend-react/src/utils/calculations.ts:39-43 | a fuller tank never shows a more severe colour |
| ReactCalc.IsRefilling | frontend-react/src/utils/calculations.ts:51-53 | refilling iff sound is detected or the trend is rising |
| Alerts.AlertService.constructor | backend/src/services/alert.service.js:9-14 | an empty history and no check yet |
| Metrics.MetricsService.constructor | backend/src/services/metrics.service.js:9-37 | every counter zero, no samples, no endpoints and no error recorded |
| Metrics.AlertsForFacts | backend/src/services/metrics.service.js:257-323 | at most five alerts, and each alert type is present exactly when its own condition holds |
| Status.StatusService.constructor | backend/src/services/status.service.js:31-48 | no sensors, gateways or heartbeat history, and the default configuration |
| Status.StatusService.SweepSensorEntry | backend/src/services/status.service.js:277-314 | one sensor is reclassified and the change is reported exactly when its status moved |
| Status.StatusService.SweepGatewayEntry | backend/src/services/status.service.js:317-347 | one gateway is reclassified and the change is reported exactly when its status moved |

## Left out

- SQL, PostgreSQL, Redis and BullMQ are not modelled. Each table or key store is an in-memory sequence or map. The queue is a list of jobs. BullMQ's concurrency, rate limit and backoff cannot be seen in this code.
- Timers, FreeRTOS tasks, FreeRTOS queues and mutexes are not modelled. Each sweep, heartbeat, compression call and packet is a sequential method call with `now` as a parameter. `millis()` wrap-around is only modelled where the source subtracts `uint32_t` values (the node registry).
- The ESP-NOW, Wi-Fi, MQTT and HTTP transports are not modelled. This covers gateway_io's MQTT and HTTP sends and status reporting, and the serial-bridge connect, scheduleReconnect, disconnect and startStatusLogger code. A send's outcome is a parameter.
- Floating point is modelled with reals. `Math.sqrt` is avoided by comparing the variance with the square of the threshold, which is equivalent because a standard deviation is non-negative. `toFixed` and `parseFloat` are only modelled where their rounding changes a comparison or a stored number.
- JSON text is not rendered or parsed. This covers cJSON inside `aguada_build_json_v1`/`v2`, `parse_json_v1`, `JSON.parse` in the serial bridge and the JSON packet of node_10. The size and argument checks of the builders are modelled, with the rendered text as a parameter.
- TelemetryController.ReceiveIndividual: telemetry.controller.js imports and calls `validateIndividualTelemetry`, but telemetry.schema.js does not export it (see Findings). As ES modules, the controller then fails to link and no route of it loads; that load failure is not modelled. ReceiveIndividualLinked models the call throwing instead, so the individual path never answers 200 or 201. ReceiveIndividual, which the rest of the model uses, takes the verdict of ValidateIndividual, a validator that checks only the members the handler reads and their types; the schema it should have is not in the source.
- TelemetryController.ReceiveManualReading: the `volume_m3` meta field, which the handler extracts with a regular expression from an observacao containing `Volume:`, is not modelled; the meta object has no such key. An infinite value, which the schema's `z.number()` admits, has no real to be stored as, so the model answers it with the handler's 500 response.
- The queued processing path is not modelled beyond its job list. It compresses only `distance_cm` jobs, while the compression engine computes volumes only for `nivel_cm`. So no event can fire on that path; the inline fallback is modelled in full.
- Cache invalidation, WebSocket broadcasts and logging inside the handlers and services have no effect on the modelled state and are left out.
- Duplicate: `cleanup()` only logs and is left out. `DUPLICATE_WINDOW_MS` is declared but read by no operation; the effective window is the 2-second key TTL.
- Status: initialize and loadConfig (status.service.js:53-89), startStatusCheck and stopStatusCheck (142-164) are not modelled, nor the read-only formatters getAllSensorStatus, getGatewayStatus, getAllGatewayStatus, formatElapsed, getConfig, clearAllStatus and registerKnownGateways. They are timers, persistence, or plain copies of the modelled maps.
- Metrics: getMetrics, formatUptime and startCollection are left out. They format snapshots of the modelled counters, or start a timer.
- Export: exportReadings and exportAlerts are HTTP handlers that only fetch rows and call exportToCSV, which is modelled.
- GatewayRegistry: printRegistry only logs.
- TelemetryController: identifySensorByMacOnly is a query the modelled handlers do not call.
- Protocol: the record definition's comment calls the binary record 32 bytes, but its packed fields take 34 bytes; the model follows the fields. A header comment names the checksum CRC-16/CCITT, but the code computes the Modbus CRC; the model follows the code.
- Protocol.StringToMac reads a group only when it is two hex digits. `%02hhx` also accepts a single digit, and that spelling is not modelled. Texts written by mac_to_string always use two digits.
- NodeMain: the branch that sends code 1 for an out-of-range (−2) distance is modelled as written. The filtered read never returns −2, so that branch is dead (NodeMain.NeverSendsOutOfRange).
- NodeSensor: the GPIO polling loops are hardware. What one trigger observed is an `Echo` value.
- The outcome of a node's radio send is only logged by the source, so the model keeps what was handed to the radio as an outbox.
- Node10: loop(), its scheduling, Wi-Fi and MQTT, checkSensorHealth and buildJSON are left out. sendTelemetry passes the median distance, not a level, to calculateVolume and calculatePercentual; the model does exactly that.
- GatewayUsb: status_task, the LED and init_espnow are hardware set-up and periodic logging. Packet payload bytes are modelled as characters, one per byte.
- GatewayQueue: when full, enqueue erases the front message, which is not always the oldest one (GatewayQueue.FullQueueDropsFrontNotOldest). incrementRetry requeues without checking capacity (GatewayQueue.RetryIgnoresCapacity). Both are modelled as written.
- GatewayRegistry: isNodeOnline uses elapsed < 300 s, while the sweep clears a flag only when elapsed > 300 s. At exactly 300 s the two disagree; this is modelled as written and shown by a lemma.
- Dashboard: the DOM, formatSensorValue and the rest of app.js that mutates `latestReadings` are left out. getLevelColor in the React calculators uses the thresholds 10/30, while app.js getGaugeColor uses 20/50. Both are modelled as written.
- Dashboard.GetReservoirConfig: `reservoirs[sensorId] || null` also finds properties every object inherits, such as `toString` and `constructor`. For those ids calculateVolumeM3 and getVolumePercent compute NaN from the function's missing fields. The model's table has only the five reservoirs, so GetReservoirConfig, CalculateVolumeM3 and GetVolumePercent treat such an id as unknown and answer 0.
- ApiService: `_cacheReadings`, IndexedDB, fetch and a localStorage quota failure are left out. Only the age check of `_getLocalCache` is modelled. Object keys are plain strings, with no inherited prototype properties.
- Metrics: the percentiles are exact nearest-rank values; their rounding for display is not modelled.
- The comment on the `distance_cm` conversion in telemetry.controller.js speaks of a factor of ten, but the code divides by 100. The model follows the code.

## Findings

| source | as written | input that shows it | evidently intended | confidence | as-written member | corrected member |
|---|---|---|---|---|---|---|
| backend/src/services/event.service.js:71-73 | the leak rate divides the volume change by the hours between the first and last data_fim of the trailing hour's rows, which may be 0 | two `nivel_cm` rows of one element, both with data_fim 1000 and volume_m3 60 then 59, queried at now 2000: the duration is 0, JavaScript gives a rate of −Infinity, and a VAZAMENTO event with an invalid rate is written | a window of zero duration gives no leak event | not executed | Events.LeakRateAsWritten, Events.LeakWindowAdmitsZeroDuration | Events.LeakEvent, Events.LeakEventInterval |
| backend/src/controllers/telemetry.controller.js:1-198 | the controller imports and calls `validateIndividualTelemetry`, which telemetry.schema.js (lines 9-79) does not export | any individual-format body, even a well-formed `{mac, type, value}`: the binding is missing (as ES modules the import does not link; otherwise the call throws and the catch rethrows), so the request never gets 200 or 201 | a validator for the individual format exported beside the others | not executed | TelemetryController.ReceiveIndividualLinked, TelemetryController.IndividualValidatorMissing | TelemetryController.ReceiveIndividual, TelemetryController.ValidateIndividual |
| firmware/gateway_usb/main/main.c:48-186 | `pkt.data[pkt.len] = '\0'` on `uint8_t data[MAX_PACKET_SIZE]`, after a length check that admits `len == MAX_PACKET_SIZE` (250) | a 250-byte ESP-NOW packet: the terminator is written one byte past the buffer | the buffer has room for the terminator (MAX_PACKET_SIZE + 1 bytes) | not executed | GatewayUsb.TerminateAsWritten, GatewayUsb.AdmittedLengthOverruns | GatewayUsb.Terminate, GatewayUsb.TerminatorFits |
