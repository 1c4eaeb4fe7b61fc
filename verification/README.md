# vps_monitor dashboard core, modelled in Dafny

This project models the browser half of the vps_monitor dashboard. That half:

- polls a metrics endpoint;
- hands each payload to the network and CPU widgets;
- keeps a rolling window of traffic samples for statistics;
- formats byte counts for display.

The model is functional. Each piece of mutable JavaScript state is an immutable datatype, and each method that mutates it is a function from the old state to the new one.

| module | file | models |
|---|---|---|
| `Wrappers` | wrappers.dfy | `Option` (JavaScript `undefined`) |
| `Payload` | payload.dfy | the JSON payload the metrics endpoint delivers, and the hub's error payload |
| `TrafficStats` | traffic_stats.dfy | `TrafficStats`: the six-hour sample window and the per-period statistics |
| `ApiManager` | api_manager.dfy | the `APIManager` singleton: subscribers, polling, rate limiting, retries and broadcast |
| `DataProcessor` | data_processor.dfy | `handleData`, `simulateData`, `generateRandomIncrement` and `ensurePositiveNumber` |
| `History` | history.dfy | the "push, then shift once past `maxDataPoints`" ring buffer that both widgets use |
| `ComponentIds` | component_ids.dfy | `prefix + counter` component identifiers |
| `NetworkMonitor` | network_monitor.dfy | `NetworkMonitor`: speed and total computation, peaks, chart scale, subscription and construction |
| `CpuMonitor` | cpu_monitor.dfy | `CPUMonitor`: payload processing, load history, `formatTime`, `getUsageColor`, subscription and construction |
| `DisplayUtils` | display_utils.dfy | `formatBytes`, `formatTotalBytes` and `roundToNiceNumber` |
| `RealArith` | real_arith.dfy | small facts about ordered-field arithmetic that the other modules use |

Modelling choices:

- **Outside inputs.** `Date.now()`, `Math.random()` and the HTTP response are not computed. They are parameters: `now`, `nowMs`, `doneAt`, `random`, and a `FetchOutcome` transport result.
- **Numbers.** JavaScript numbers are modelled as exact `real`s.
- **Logarithms.** `Math.floor(Math.log(x) / Math.log(b))` is modelled as the exact floor logarithm, `FloorLog`. Its defining property is `b^k <= x < b^(k+1)`.
- **Polling.** One turn of the hub's `pollData` is a pure `PollCycle`. It returns:
  - the new hub state;
  - the delay of the next `setTimeout`, or none;
  - the payload each subscriber's callback receives.

## Model

| member | source | states |
|---|---|---|
| `Payload.ErrorPayloadIsRecognised` | api-manager.js:116-119 | The payload the hub sends once retries are exhausted counts as an error and carries neither CPU nor network data. |
| `TrafficStats.PeriodsIncrease` | network_monitor/traffic-stats.js:6-14 | The seven reporting periods grow strictly from one minute to six hours. None is longer than the six-hour retention age. |
| `TrafficStats.After` | network_monitor/traffic-stats.js:39-40 | The age filter keeps exactly the points newer than the cutoff, and never lengthens the series. |
| `TrafficStats.AfterIsSubsequence` | network_monitor/traffic-stats.js:40 | Filtering keeps the surviving points in the order they were added. |
| `TrafficStats.AfterAfter` | network_monitor/traffic-stats.js:39-40 | Filtering first at an older cutoff and then at a newer one is the same as filtering once at the newer one. |
| `TrafficStats.AddDataPoint` | network_monitor/traffic-stats.js:30-41 | After an append, no retained point is older than six hours, measured from `now`. The new point is the last one kept exactly when it is inside the window. Every earlier point inside the window survives, and the order is preserved. |
| `TrafficStats.AddDataPointCounts` | network_monitor/traffic-stats.js:30-41 | After an append, each point inside the window occurs exactly as often as in the old series plus the new sample. A point outside the window does not occur at all. |
| `TrafficStats.AddDataPointKeepsSorted` | network_monitor/traffic-stats.js:30-41 | Appending points in time order keeps the stored series sorted by timestamp. |
| `TrafficStats.CalculateStats` | network_monitor/traffic-stats.js:48-66 | A period with no samples reports all eight fields as zero. |
| `TrafficStats.Summarize` | network_monitor/traffic-stats.js:69-101 | For a non-empty series, max and min are members of the series that bound every sample. The total is the sum (the sampling interval is 1 s). The average is total / count and lies between min and max. |
| `TrafficStats.StatsAverages` | network_monitor/traffic-stats.js:92-101 | For a non-empty period, each average is that period's speed total divided by its sample count. Each total is the sum of the speeds. |
| `TrafficStats.StatsExtremes` | network_monitor/traffic-stats.js:69-90 | Each reported max and min is the speed of some sample in the period, and every sample's speed lies between them. |
| `TrafficStats.AverageBetweenMinAndMax` | network_monitor/traffic-stats.js:92-95 | An average lies between the smallest and the largest sample. |
| `TrafficStats.NestedWindows` | network_monitor/traffic-stats.js:50-53 | A longer period contains every sample of a shorter one. Its max is at least as large and its min at least as small. |
| `TrafficStats.ReduceSeries` | network_monitor/traffic-stats.js:69-95 | The source's fold, seeded with ±Infinity, gives the same max, min, total and average as the reference summary. |
| `TrafficStats.CalculateStatsByReduce` | network_monitor/traffic-stats.js:48-104 | The loop-based statistics agree with the reference `CalculateStats` for every series, window and time. |
| `TrafficStats.GetAllStats` | network_monitor/traffic-stats.js:110-120 | The report has exactly the seven periods, and each entry is the statistics of that period's interval. |
| `TrafficStats.LabelsDistinct` | network_monitor/traffic-stats.js:110-120 | The seven report keys (`1min` to `6hours`) are pairwise different, so no period overwrites another. |
| `TrafficStats.SevenPeriods` | network_monitor/traffic-stats.js:110-120 | Every period has an entry in the report. |
| `TrafficStats.EmptyAggregatorIsAllZero` | network_monitor/traffic-stats.js:55-66 | With no samples, every period of the report is all zero. |
| `TrafficStats.TwoSampleScenario` | network_monitor/traffic-stats.js:30-101 | Two samples one second apart (100/200 and 300/400 B/s) give a one-hour entry with averages 200/300, max 300/400, min 100/200 and totals 400/600. |
| `ApiManager.Subscribe` | api-manager.js:37-50 | The callback is registered under its id and no other entry changes. Polling starts exactly when the hub was idle and this is now the only subscriber. A cached payload is delivered to the new subscriber at once. |
| `ApiManager.Unsubscribe` | api-manager.js:53-60 | The id is removed and no other entry changes. Polling stops exactly when no subscriber is left. |
| `ApiManager.ResubscribeRestores` | api-manager.js:37-60 | Unsubscribing a registered callback and subscribing it again restores the subscriber table. |
| `ApiManager.SubscribeThenUnsubscribe` | api-manager.js:37-60 | Subscribing a new id and then unsubscribing it restores the subscriber table. |
| `ApiManager.StartPolling` | api-manager.js:63-68 | Starting sets the running flag. It launches a poll cycle only when the hub was not already running. |
| `ApiManager.StopPolling` | api-manager.js:71-76 | Stopping clears the running flag and changes nothing else. |
| `ApiManager.SubscribeKeepsRunningMatches` | api-manager.js:37-50 | Subscribing keeps the invariant "polling runs iff there is a subscriber". |
| `ApiManager.UnsubscribeKeepsRunningMatches` | api-manager.js:53-60 | Unsubscribing keeps the invariant "polling runs iff there is a subscriber". |
| `ApiManager.ReachableHubsRunExactlyWhenSubscribed` | api-manager.js:26-76 | From the initial hub, every sequence of subscribe and unsubscribe calls leaves polling running exactly when someone is subscribed. |
| `ApiManager.FetchData` | api-manager.js:128-137 | With no base URL the fetch fails without touching the network. Otherwise its outcome is the transport's. |
| `ApiManager.EmptyBaseUrlFails` | api-manager.js:129-131 | With an empty base URL, a poll cycle behaves as if the fetch failed, and no subscriber ever receives fetched data. |
| `ApiManager.Broadcast` | api-manager.js:100-102 | Every subscriber, and only subscribers, receives the same payload. |
| `ApiManager.PollCycle` | api-manager.js:79-125 | A cycle never changes the subscribers or the running flag. Either nobody is notified or every subscriber is. A follow-up poll is scheduled iff the hub is running. |
| `ApiManager.CycleWhenStopped` | api-manager.js:80 | A stopped hub does nothing and schedules nothing. |
| `ApiManager.CycleRateLimited` | api-manager.js:83-90 | Before `updateInterval` has passed since the last fetch, the hub only schedules a retry after the remaining wait. |
| `ApiManager.CycleSuccess` | api-manager.js:92-105 | A successful fetch records the completion time, resets the retry count, caches the data, sends it to every subscriber and schedules the next poll after `updateInterval`. |
| `ApiManager.CycleFailureRetries` | api-manager.js:111-114 | A failure with retries left increments the counter, notifies nobody and retries after `retryTimeout`. |
| `ApiManager.CycleFailureExhausted` | api-manager.js:115-123 | A failure with no retries left sends the error payload to every subscriber, resets the counter and resumes normal polling. |
| `ApiManager.CycleKeepsRetriesInRange` | api-manager.js:111-123 | The retry counter stays between 0 and `maxRetries`. |
| `ApiManager.CycleNotifiesUniformly` | api-manager.js:97-119 | In one cycle every notified subscriber receives the same payload, and that payload is either the fetched data or the error payload. |
| `ApiManager.FourFailures` | api-manager.js:111-123 | With the default three retries, four consecutive failures make three silent retries and then one error broadcast, after which the counter is back at 0. |
| `ApiManager.DeferredSecondFetch` | api-manager.js:83-105 | A poll that arrives less than a second after a successful fetch is deferred by exactly the remainder of the second. |
| `ApiManager.LatestDataIsLastSuccess` | api-manager.js:92-142 | `getLatestData` returns the cached payload without fetching. That payload changes only to the payload of a successful fetch. A failed fetch, including one that broadcasts the error payload, leaves it as it was. |
| `ApiManager.SetUpdateInterval` | api-manager.js:145-147 | Only the update interval changes, and it takes the given value. |
| `ApiManager.SetBaseUrl` | api-manager.js:150-152 | Only the base URL changes, and it takes the given value. |
| `ApiManager.SetRetryConfig` | api-manager.js:155-158 | Only the retry timeout and the retry limit change, and they take the given values. |
| `ApiManager.SettersTakeEffect` | api-manager.js:145-158 | The setters leave subscribers and cache alone. A changed update interval governs the next deferral, and a changed retry configuration governs the next failure. After the base URL is cleared, no transport outcome changes the cache. |
| `DataProcessor.EnsurePositiveNumber` | network_monitor/dataProcessor.js:78-80 | The result is never negative. A non-numeric value gives 0, a negative number gives 0, and a non-negative number is kept. |
| `DataProcessor.HandleData` | network_monitor/dataProcessor.js:8-39 | A payload is processed iff it is present, has no error and has a truthy timestamp, a network object and both counters. In that case it carries those counters clamped to be non-negative. Everything else is simulated. |
| `DataProcessor.ErrorPayloadIsSimulated` | network_monitor/dataProcessor.js:10-14 | The hub's error payload always leads to a simulated sample. |
| `DataProcessor.RandomIncrement` | network_monitor/dataProcessor.js:69-71 | A random increment lies between 100 KiB and 2 MiB − 1 bytes. |
| `DataProcessor.EveryIncrementReachable` | network_monitor/dataProcessor.js:69-71 | Every whole increment in that range is produced by some value of `Math.random()`. |
| `DataProcessor.SimulatedSample` | network_monitor/dataProcessor.js:45-63 | A simulated sample raises both counters by an increment in range. Its timestamp is the current time in whole seconds. |
| `History.Push` | network-monitor.js:107-111 | The new value is last, and before it sits the old buffer, or the old buffer minus its oldest entry when it was full. |
| `History.PushLength` | cpu-monitor.js:215-218 | The buffer grows by one until it reaches capacity and then keeps its length, so it never exceeds `maxDataPoints`. |
| `ComponentIds.DigitsInjective` | network-monitor.js:20 | Different counter values render as different decimal strings. |
| `ComponentIds.DistinctCountersDistinctIds` | network-monitor.js:11-20 | Two components built from different counter values get different ids. |
| `ComponentIds.DifferentPrefixesDistinctIds` | cpu-monitor.js:18 | Ids with different first characters of prefix never clash. |
| `NetworkMonitor.Growth` | network-monitor.js:96-97 | The counter delta is the increase when the counter rose, and 0 when it fell. |
| `NetworkMonitor.ProcessData` | network-monitor.js:88-126 | The sample always becomes the new reference and the since-reboot counters. Speeds, totals and history change only when there is a previous sample and time has advanced. Speed times elapsed time equals each counter's growth, the totals grow by that growth, and both histories gain the new speeds. |
| `NetworkMonitor.ProcessKeepsValid` | network-monitor.js:88-126 | Processing keeps both histories at exactly `maxDataPoints` non-negative speeds, and keeps speeds and totals non-negative. |
| `NetworkMonitor.FirstSampleOnlyPrimes` | network-monitor.js:93 | On a fresh monitor the first sample only sets the reference. No speed, total or history changes. |
| `NetworkMonitor.ProcessIdempotent` | network-monitor.js:93-95 | Delivering the same sample twice changes nothing the second time, because no time has elapsed. |
| `NetworkMonitor.TotalsTelescope` | network-monitor.js:103-104 | Over a run of samples with rising timestamps and counters, the session totals grow by exactly last counter − first counter. |
| `NetworkMonitor.GrowthGivesSpeed` | network-monitor.js:94-100 | When time advances and the sent counter grows, the upload speed is positive. |
| `NetworkMonitor.HandleData` | network_monitor/dataProcessor.js:8-39 | A usable payload is processed as its cleaned sample, and anything else is replaced by a simulated sample. Clamped counters keep the monitor's sample counters non-negative. |
| `NetworkMonitor.HandleKeepsValid` | network-monitor.js:88-126 | Handling any payload, processed or simulated, keeps a valid monitor valid. |
| `NetworkMonitor.SimulateData` | network-monitor.js:231-233 | A simulated step raises the reference counters by at least 100 KiB. When time has advanced it adds at least that much to both session totals. |
| `NetworkMonitor.ErrorPayloadKeepsTrafficFlowing` | network_monitor/dataProcessor.js:10-14 | After an error payload arrives in a later second than the previous sample, the display shows positive upload and download speeds. |
| `NetworkMonitor.Peak` | network-monitor.js:138-139 | The peak is never negative, bounds every sample, and is either 0 or one of the samples. |
| `NetworkMonitor.ChartMax` | network-monitor.js:156-158 | The chart scale is positive, bounds every plotted value, and is either a sample or the 1 000 000 default. |
| `NetworkMonitor.IdleChartUsesDefault` | network-monitor.js:158 | When no speed is positive, the chart falls back to the 1 000 000 default. |
| `NetworkMonitor.PlotFitsChart` | network-monitor.js:156-194 | For a valid monitor, every plotted point's height fraction lies in [0, 1], so no line leaves the plot area. |
| `NetworkMonitor.StartMonitoring` | network-monitor.js:217-222 | Starting is a no-op when already subscribed. Otherwise it subscribes under the component id and sets the flag. A payload the hub has cached is handled first, exactly as `handleData` would handle it. With an empty cache the monitor is otherwise unchanged. |
| `NetworkMonitor.StopMonitoring` | network-monitor.js:224-229 | Stopping removes the component's subscription and is a no-op when not subscribed. |
| `NetworkMonitor.ToggleMonitoring` | network-monitor.js:203-215 | Toggling flips the running flag and keeps the subscription in step with it. Pausing changes nothing else. Resuming changes nothing else unless the hub holds a cached payload; then that payload is handled. |
| `NetworkMonitor.ToggleTwiceRestores` | network-monitor.js:203-229 | Two toggles restore the hub's subscriber table. With nothing cached in the hub they also restore the monitor. |
| `NetworkMonitor.PauseResumeReplaysCache` | network-monitor.js:203-229 | Pausing and resuming a running monitor while the hub holds a payload leaves the monitor as if that payload had been handled once more. |
| `NetworkMonitor.Create` | network-monitor.js:13-74 | A missing container yields no monitor and consumes no counter value. Otherwise the monitor takes the next `networkMonitor_` id, is valid and running, and is subscribed exactly when its canvas could be set up. It starts without a sample unless it subscribed to a hub holding a payload; then it is the fresh monitor with that payload handled. |
| `NetworkMonitor.CachedPayloadPrimesNewMonitor` | network-monitor.js:13-74 | A monitor created while the hub holds a payload (at a clock of at least one second) already has a reference sample. |
| `NetworkMonitor.SuccessiveMonitorsDiffer` | network-monitor.js:11-20 | Two monitors created one after another get different ids. |
| `NetworkMonitor.FractionalSpeedIsReachable` | network-monitor.js:94-99 | A rate below 1 B/s (1 byte in 2 s) really reaches `formatBytes`, which renders it without a unit. |
| `CpuMonitor.ProcessData` | cpu-monitor.js:205-229 | Every CPU field is copied from the payload. The load average is appended to a history capped at 100 entries (the oldest is dropped when full). The load history mirrors that buffer. |
| `CpuMonitor.ProcessKeepsValid` | cpu-monitor.js:215-218 | The load history never exceeds 100 entries. Once full, it stays full. |
| `CpuMonitor.HandleData` | cpu-monitor.js:188-203 | A missing payload, or one without CPU data, leaves the monitor unchanged. Anything else is processed. |
| `CpuMonitor.HandleKeepsValid` | cpu-monitor.js:188-218 | Handling keeps the id and the subscribed flag, and keeps a valid monitor valid. |
| `CpuMonitor.ErrorPayloadIgnored` | cpu-monitor.js:189-193 | The hub's error payload leaves the CPU monitor unchanged. |
| `CpuMonitor.HistoryIsSuffix` | cpu-monitor.js:215-218 | After any run of payloads, the load history is exactly the last (at most 100) load averages seen. |
| `CpuMonitor.Trunc` | cpu-monitor.js:242-247 | The result is the integer between zero and the input nearest the input: for x ≥ 0 it is in (x − 1, x], for x < 0 in [x, x + 1). |
| `CpuMonitor.JsMod` | cpu-monitor.js:244-245 | JavaScript `%` takes the sign of the dividend and is smaller than the divisor in magnitude. The dividend minus the result is the truncated quotient times the divisor. |
| `CpuMonitor.FormatTime` | cpu-monitor.js:242-247 | For a non-negative duration, hours are non-negative, minutes and seconds lie in [0, 60), and h·3600 + m·60 + s is the whole number of seconds. |
| `CpuMonitor.FormatTimeSplits` | cpu-monitor.js:242-247 | Recombining the parts gives back the whole number of seconds: h·3600 + m·60 + s equals the floor of the input. |
| `CpuMonitor.GetUsageColor` | cpu-monitor.js:250-255 | Red iff ≥ 90 %, orange iff in [70, 90), green iff in [50, 70), blue iff < 50 %. |
| `CpuMonitor.UsageColorMonotone` | cpu-monitor.js:250-255 | A higher usage never gets a milder colour. |
| `CpuMonitor.SubscribeToApi` | cpu-monitor.js:569-578 | The monitor is registered under its id with its own callback and marked subscribed, and other entries are unaffected. A cached payload is handled first, so the monitor is the handled one. With an empty cache it is otherwise unchanged. |
| `CpuMonitor.UnsubscribeFromApi` | cpu-monitor.js:580-589 | The monitor's entry is removed, other subscribers are unaffected, and the monitor is marked unsubscribed. |
| `CpuMonitor.ToggleMonitoring` | cpu-monitor.js:592-602 | Toggling flips the subscribed flag and keeps the hub in step. Unsubscribing changes nothing else. Subscribing changes nothing else unless the hub holds a cached payload; then that payload is handled. |
| `CpuMonitor.ToggleTwiceRestores` | cpu-monitor.js:569-602 | Two toggles restore the hub's subscriber table. With nothing cached in the hub they also restore the monitor. |
| `CpuMonitor.PauseResumeReplaysCache` | cpu-monitor.js:569-602 | Unsubscribing and resubscribing handles the cached payload once more, so its load average is appended again. |
| `CpuMonitor.Create` | cpu-monitor.js:9-57 | A missing container yields no monitor and consumes no counter value. Otherwise the monitor takes the next `cpuMonitor_` id, is valid and subscribes. It is the fresh monitor with the hub's cached payload fully handled: empty data when nothing is cached or the payload has no CPU data, otherwise every CPU field copied and the payload's load average as its first history entry. |
| `CpuMonitor.CpuIdsDifferFromNetworkIds` | cpu-monitor.js:18 | CPU monitor ids never clash with network monitor ids. |
| `DisplayUtils.FloorLog` | network_monitor/utils.js:19 | The unit exponent k is the unique integer with base^k ≤ x < base^(k+1). It is non-negative iff x ≥ 1. |
| `DisplayUtils.FormatAsWritten` | network_monitor/utils.js:13-28 | As written: zero gives the fixed zero text. A magnitude in (0, 1) is scaled up into [1, 1024) and gets no unit. A magnitude of at least 1 gets one of the listed units. |
| `DisplayUtils.Format` | network_monitor/utils.js:13-28 | Corrected: zero gives the fixed zero text, and every other value gets one of the listed units. Values below one unit are shown in the base unit. |
| `DisplayUtils.FormatBytes` | network_monitor/utils.js:13-28 | Corrected: a rate is shown as "0 B/s" iff it is zero. Otherwise it is shown with a unit from B/s to TB/s, and a rate below 1 is shown unscaled in B/s. |
| `DisplayUtils.FormatTotalBytes` | network_monitor/utils.js:36-51 | Corrected: a size is shown as "0 B" iff it is zero. Otherwise it is shown with a unit from B to TB, and a size below 1 is shown unscaled in B. |
| `DisplayUtils.FormatBytesAsWritten` | network_monitor/utils.js:13-28 | As written: "0 B/s" iff zero. A rate below 1 is scaled into [1, 1024) with no unit. From 1 up it equals the corrected formatter. |
| `DisplayUtils.FormatTotalBytesAsWritten` | network_monitor/utils.js:36-51 | As written: "0 B" iff zero. A size below 1 is scaled into [1, 1024) with no unit. From 1 up it equals the corrected formatter. |
| `DisplayUtils.FormatIgnoresSign` | network_monitor/utils.js:16 | A value and its negation are displayed identically. |
| `DisplayUtils.FormatInRange` | network_monitor/utils.js:19-27 | Between 1 B and 1024^5 B, the displayed number lies in [1, 1024) and is the value divided by 1024 to the power of the unit index. |
| `DisplayUtils.LargeValuesUseLastUnit` | network_monitor/utils.js:22 | Values of at least 1024^(n−1), for n units, are shown in the largest unit as a number ≥ 1, which may exceed 1024. There the corrected and the as-written formatters agree. |
| `DisplayUtils.TerabytesAtTheTop` | network_monitor/utils.js:4-5 | A rate or size of at least 1024^4 is shown in TB/s or TB. |
| `DisplayUtils.ClampOnlyMattersBelowOne` | network_monitor/utils.js:19-22 | For magnitudes of at least 1, the corrected and the as-written formatters agree. |
| `DisplayUtils.FractionalRateHasNoUnit` | network_monitor/utils.js:19-27 | As written, 0.5 B/s and 0.5 B are shown as 512 with no unit. The corrected formatter shows 0.5 B/s. |
| `DisplayUtils.NiceFraction` | network_monitor/utils.js:68-72 | The nice mantissa is 1 iff f ≤ 1.2, 2 iff f is in (1.2, 2.5], 5 iff f is in (2.5, 5], and 10 otherwise. |
| `DisplayUtils.Decade` | network_monitor/utils.js:64-65 | The decade of a positive value is 10 to the floor of its decimal logarithm, at most the value and more than a tenth of it; it is at least 1 for values of at least 1. |
| `DisplayUtils.NiceNumber` | network_monitor/utils.js:64-75 | The nice number is the nice fraction of a / decade times the decade. It lies in [0.8·a, 2·a), and is at least 1 when a is. |
| `DisplayUtils.RoundToNiceNumber` | network_monitor/utils.js:58-78 | The result is at least 1 and is 1 for zero. For \|v\| ≥ 1 it is the nice number of \|v\|, within [0.8·\|v\|, 2·\|v\|). |
| `DisplayUtils.RoundToNiceIgnoresSign` | network_monitor/utils.js:61 | A value and its negation round to the same nice number. |
| `DisplayUtils.SmallValuesRoundToOne` | network_monitor/utils.js:75-78 | Any magnitude below 1 rounds up to 1. |
| `DisplayUtils.NiceShape` | network_monitor/utils.js:64-75 | Every nice number is 1, 2, 5 or 10 times a power of ten. |
| `DisplayUtils.RoundToNiceIdempotent` | network_monitor/utils.js:58-78 | Rounding a nice number again leaves it unchanged. |

## Left out

- The DOM, canvases, buttons, `requestAnimationFrame`, `updateUI` and the traffic statistics table are rendering only. The model keeps the values they display. It does not keep the pixels.
- `Date.now()`, `Math.random()`, `setTimeout` and the `await` on `fetch` are parameters or outcomes of one `PollCycle` step. Interleavings of concurrent cycles, and a cycle racing `stopPolling`, are not modelled.
- The `.env` fetch that sets `baseURL` and the HTTP request itself are outside the model. A fetch is a `FetchOutcome` parameter. Malformed JSON and non-OK statuses both count as `FetchFailed`.
- The `typeof APIManager === 'undefined'` guards in the CPU monitor are not modelled. The hub is always present.
- `NaN` and `Infinity` cannot be represented. The `!isFinite` branches of `formatBytes`, `formatTotalBytes` and `roundToNiceNumber` are therefore not modelled, and the traffic reduce is seeded with an explicit "no value yet" instead of ±Infinity.
- `DisplayUtils.FloorLog` computes the floor logarithm exactly. Floating-point error in `Math.log(x) / Math.log(1024)`, which can be off by one at exact powers, is not modelled.
- `DisplayUtils.FormatBytes` and `DisplayUtils.FormatTotalBytes` return the number and the unit. `toFixed(decimals)` and the string concatenation are not modelled.
- `Payload.NumberOf` treats every string and array as `NaN`. JavaScript's `Number("12")` and `Number([3])` parse them, which the model does not.
- A payload timestamp is a number or missing. Non-numeric timestamps, and a `network` or `cpu` field that is present but not an object, are not modelled.
- `TrafficStats.GetAllStats` takes one clock reading for all seven periods. The source reads `Date.now()` again inside each `calculateStats` call, so its windows may end a few milliseconds apart.
- A payload is either absent or a JSON object. A top-level `null` or other falsy body, which the truthiness checks on the cached and delivered data would treat like an absent one, is modelled only as absent. The server always answers with an object.
- Callbacks are named by their component id. A callback that throws, and the resulting abort of the hub's notification loop, are not modelled.
- `CpuMonitor.FormatTime` proves its contract only for non-negative durations. The string rendering `"${h}h ${m}m ${s}s"` is left out.
- `formatNumber`, `formatFrequency` and the CPU core grid, charts and load chart drawing are presentation only.
- `destroy()`, `main.py` (the FastAPI server that produces the payload), `ui.js`, `canvas.js` and `traffic-stats-ui.js` are not part of this model.
- `NetworkMonitor.ToggleTwiceRestores` and `CpuMonitor.ToggleTwiceRestores` restore the monitor only when the hub's cache is empty. Resubscribing replays a cached payload, and `PauseResumeReplaysCache` states the result in that case.
- `NetworkMonitor.Create` starts without a sample only when nothing is cached or the canvas is missing. Otherwise the cached payload is handled at once, as `CachedPayloadPrimesNewMonitor` states.
- `NetworkMonitor.Create` and `CpuMonitor.Create` model the constructors' effect on state. Canvas sizing and event listener setup are not modelled.

## Findings

| source | as written | input that shows it | evidently intended | confidence | as-written member | corrected member |
|---|---|---|---|---|---|---|
| network_monitor/utils.js:19-25, 42-48 | The unit index `floor(log(x)/log(1024))` is clamped only from above (`Math.min`). For 0 < \|x\| < 1 it is negative, so the value is multiplied by 1024 and the unit lookup is `undefined`. | `formatBytes(0.5)` gives "512.00 undefined" instead of "0.50 B/s". Such a rate arises from 1 byte in 2 seconds (`NetworkMonitor.FractionalSpeedIsReachable`). | Also clamp the index at 0, so sub-unit values are shown in the base unit. | not executed | `DisplayUtils.FractionalRateHasNoUnit` (on `DisplayUtils.FormatAsWritten`) | `DisplayUtils.Format` (with `DisplayUtils.FormatInRange` and `DisplayUtils.ClampOnlyMattersBelowOne`) |
