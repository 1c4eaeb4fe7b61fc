/** The network widget's state machine: turning successive counter samples
    into speeds, totals and chart histories, and keeping its subscription to
    the hub in step with its running flag. The DOM, the canvas and the
    animation frames are not modelled; `Date.now()` and `Math.random()` are
    parameters. */
module NetworkMonitor {
  import opened Wrappers
  import opened Payload
  import History
  import TrafficStats
  import ApiManager
  import DataProcessor
  import RealArith
  import DisplayUtils
  import ComponentIds

  type Sample = DataProcessor.Sample

  const MAX_DATA_POINTS: nat := 100
  const ID_PREFIX: string := "networkMonitor_"
  /** The chart's vertical scale when every plotted speed is zero. */
  const DEFAULT_CHART_MAX: real := 1000000.0

  datatype Monitor = Monitor(
    componentId: string,
    lastData: Sample,
    uploadData: seq<real>,
    downloadData: seq<real>,
    uploadSpeed: real,
    downloadSpeed: real,
    totalSent: real,
    totalReceived: real,
    bytesSentSinceReboot: real,
    bytesReceivedSinceReboot: real,
    traffic: seq<TrafficStats.Point>,
    isRunning: bool,
    isSubscribed: bool)

  /** The state the constructor sets up: zeroed counters, two histories of
      one hundred zeros, running but not yet subscribed. */
  function Fresh(componentId: string): (m: Monitor)
    ensures Valid(m) && Unprimed(m)
    ensures m.componentId == componentId && m.isRunning && !m.isSubscribed
    ensures m.totalSent == 0.0 && m.totalReceived == 0.0 && |m.traffic| == 0
  {
    Monitor(componentId, DataProcessor.Sample(0.0, 0.0, 0.0),
            seq(MAX_DATA_POINTS, _ => 0.0), seq(MAX_DATA_POINTS, _ => 0.0),
            0.0, 0.0, 0.0, 0.0, 0.0, 0.0, [], true, false)
  }

  predicate NonNegative(s: seq<real>)
  {
    forall i :: 0 <= i < |s| ==> s[i] >= 0.0
  }

  /** What holds of every monitor the source can reach: both histories hold
      exactly one hundred non-negative speeds, and speeds and totals are
      never negative. */
  predicate Valid(m: Monitor)
  {
    && |m.uploadData| == MAX_DATA_POINTS && |m.downloadData| == MAX_DATA_POINTS
    && NonNegative(m.uploadData) && NonNegative(m.downloadData)
    && m.uploadSpeed >= 0.0 && m.downloadSpeed >= 0.0
    && m.totalSent >= 0.0 && m.totalReceived >= 0.0
  }

  /** No sample has been taken yet: the `timestamp === 0` sentinel. */
  predicate Unprimed(m: Monitor)
  {
    m.lastData.timestamp == 0.0
  }

  /** A new sample yields speeds when a previous one exists and the clock
      moved forward. */
  predicate Advances(m: Monitor, s: Sample)
  {
    m.lastData.timestamp != 0.0 && s.timestamp - m.lastData.timestamp > 0.0
  }

  function Growth(before: real, after: real): (r: real)
    ensures r >= 0.0
    ensures after >= before ==> before + r == after
    ensures after < before ==> r == 0.0
  {
    if after - before > 0.0 then after - before else 0.0
  }

  /** `processData`. When the sample advances the clock, each counter's
      growth (never negative, so a counter reset counts as no traffic) is
      divided by the elapsed seconds to give the speed, added to the running
      total, pushed onto the history, and the speed pair is recorded in the
      traffic aggregator at `nowMs`. In every case the sample becomes the
      new reference point and the since-reboot counters. */
  function ProcessData(m: Monitor, s: Sample, nowMs: int): (r: Monitor)
    ensures r.lastData == s
    ensures r.bytesSentSinceReboot == s.bytesSent && r.bytesReceivedSinceReboot == s.bytesRecv
    ensures r.componentId == m.componentId && r.isRunning == m.isRunning
    ensures r.isSubscribed == m.isSubscribed
    ensures !Advances(m, s) ==>
              r == m.(lastData := s, bytesSentSinceReboot := s.bytesSent,
                      bytesReceivedSinceReboot := s.bytesRecv)
    ensures Advances(m, s) ==>
              && r.uploadSpeed * (s.timestamp - m.lastData.timestamp)
                 == Growth(m.lastData.bytesSent, s.bytesSent)
              && r.downloadSpeed * (s.timestamp - m.lastData.timestamp)
                 == Growth(m.lastData.bytesRecv, s.bytesRecv)
              && r.totalSent == m.totalSent + Growth(m.lastData.bytesSent, s.bytesSent)
              && r.totalReceived == m.totalReceived + Growth(m.lastData.bytesRecv, s.bytesRecv)
              && r.uploadData == History.Push(m.uploadData, r.uploadSpeed, MAX_DATA_POINTS)
              && r.downloadData == History.Push(m.downloadData, r.downloadSpeed, MAX_DATA_POINTS)
              && r.traffic == TrafficStats.AddDataPoint(m.traffic, nowMs, r.uploadSpeed,
                                                        r.downloadSpeed, nowMs)
    ensures r.totalSent >= m.totalSent && r.totalReceived >= m.totalReceived
  {
    var moved :=
      if Advances(m, s) then
        var dt := s.timestamp - m.lastData.timestamp;
        var up := Growth(m.lastData.bytesSent, s.bytesSent);
        var down := Growth(m.lastData.bytesRecv, s.bytesRecv);
        var upSpeed := up / dt;
        var downSpeed := down / dt;
        m.(uploadSpeed := upSpeed, downloadSpeed := downSpeed,
           totalSent := m.totalSent + up, totalReceived := m.totalReceived + down,
           uploadData := History.Push(m.uploadData, upSpeed, MAX_DATA_POINTS),
           downloadData := History.Push(m.downloadData, downSpeed, MAX_DATA_POINTS),
           traffic := TrafficStats.AddDataPoint(m.traffic, nowMs, upSpeed, downSpeed, nowMs))
      else m;
    moved.(lastData := s, bytesSentSinceReboot := s.bytesSent,
           bytesReceivedSinceReboot := s.bytesRecv)
  }

  /** Processing never breaks the monitor's invariant, whatever the sample. */
  lemma ProcessKeepsValid(m: Monitor, s: Sample, nowMs: int)
    requires Valid(m)
    ensures Valid(ProcessData(m, s, nowMs))
  {
    var r := ProcessData(m, s, nowMs);
    if Advances(m, s) {
      var dt := s.timestamp - m.lastData.timestamp;
      assert r.uploadSpeed == Growth(m.lastData.bytesSent, s.bytesSent) / dt;
      assert r.downloadSpeed == Growth(m.lastData.bytesRecv, s.bytesRecv) / dt;
      History.PushLength(m.uploadData, r.uploadSpeed, MAX_DATA_POINTS);
      History.PushLength(m.downloadData, r.downloadSpeed, MAX_DATA_POINTS);
      History.PushMembers(m.uploadData, r.uploadSpeed, MAX_DATA_POINTS, x => x >= 0.0);
      History.PushMembers(m.downloadData, r.downloadSpeed, MAX_DATA_POINTS, x => x >= 0.0);
    }
  }

  /** The first sample only sets the reference point: no speed, total or
      history changes. */
  lemma FirstSampleOnlyPrimes(m: Monitor, s: Sample, nowMs: int)
    requires Unprimed(m)
    ensures var r := ProcessData(m, s, nowMs);
            && r.uploadData == m.uploadData && r.downloadData == m.downloadData
            && r.totalSent == m.totalSent && r.totalReceived == m.totalReceived
            && r.traffic == m.traffic
            && r.lastData == s
  {
  }

  /** Delivering the same sample twice changes nothing the second time. */
  lemma ProcessIdempotent(m: Monitor, s: Sample, t1: int, t2: int)
    ensures ProcessData(ProcessData(m, s, t1), s, t2) == ProcessData(m, s, t1)
  {
    var r := ProcessData(m, s, t1);
    assert !Advances(r, s);
  }

  /** Processes a run of samples in order. */
  function ProcessAll(m: Monitor, samples: seq<Sample>, nowMs: int): (r: Monitor)
    ensures |samples| > 0 ==> r.lastData == samples[|samples| - 1]
    ensures r.totalSent >= m.totalSent && r.totalReceived >= m.totalReceived
    decreases |samples|
  {
    if |samples| == 0 then m
    else ProcessAll(ProcessData(m, samples[0], nowMs), samples[1..], nowMs)
  }

  /** Each sample is later than the one before it and neither counter went
      backwards. */
  predicate Climbing(prev: Sample, samples: seq<Sample>)
    decreases |samples|
  {
    |samples| == 0 ||
    (&& samples[0].timestamp > prev.timestamp
     && samples[0].bytesSent >= prev.bytesSent
     && samples[0].bytesRecv >= prev.bytesRecv
     && Climbing(samples[0], samples[1..]))
  }

  /** Over an uninterrupted run of samples the totals grow by exactly what
      the system counters grew by: the per-sample differences telescope. */
  lemma {:induction false} TotalsTelescope(m: Monitor, samples: seq<Sample>, nowMs: int)
    requires m.lastData.timestamp > 0.0
    requires Climbing(m.lastData, samples)
    ensures var r := ProcessAll(m, samples, nowMs);
            && r.totalSent == m.totalSent + (r.lastData.bytesSent - m.lastData.bytesSent)
            && r.totalReceived == m.totalReceived + (r.lastData.bytesRecv - m.lastData.bytesRecv)
    decreases |samples|
  {
    if |samples| > 0 {
      var next := ProcessData(m, samples[0], nowMs);
      assert Advances(m, samples[0]);
      TotalsTelescope(next, samples[1..], nowMs);
    }
  }

  // ---------------------------------------------------------------------
  // Receiving hub payloads
  // ---------------------------------------------------------------------

  /** The subscriber callback: `handleData` decides whether the payload is
      processed as delivered or replaced by a simulated sample built from
      `lastData`, the clock and the two random draws. */
  function HandleData(m: Monitor, data: Option<Metrics>, nowMs: int,
                      randomSent: real, randomRecv: real): (r: Monitor)
    requires 0.0 <= randomSent < 1.0 && 0.0 <= randomRecv < 1.0
    ensures DataProcessor.HandleData(data).Process? ==>
              r == ProcessData(m, DataProcessor.HandleData(data).sample, nowMs)
    ensures DataProcessor.HandleData(data).Simulate? ==>
              r == SimulateData(m, nowMs, randomSent, randomRecv)
    ensures m.lastData.bytesSent >= 0.0 && m.lastData.bytesRecv >= 0.0 ==>
              r.lastData.bytesSent >= 0.0 && r.lastData.bytesRecv >= 0.0
    ensures r.componentId == m.componentId && r.isRunning == m.isRunning
    ensures r.isSubscribed == m.isSubscribed
  {
    match DataProcessor.HandleData(data)
    case Process(s) => ProcessData(m, s, nowMs)
    case Simulate => SimulateData(m, nowMs, randomSent, randomRecv)
  }

  /** Handling any payload keeps a valid monitor valid. */
  lemma HandleKeepsValid(m: Monitor, data: Option<Metrics>, nowMs: int,
                         randomSent: real, randomRecv: real)
    requires 0.0 <= randomSent < 1.0 && 0.0 <= randomRecv < 1.0
    requires Valid(m)
    ensures Valid(HandleData(m, data, nowMs, randomSent, randomRecv))
  {
    match DataProcessor.HandleData(data)
    case Process(s) => ProcessKeepsValid(m, s, nowMs);
    case Simulate =>
      ProcessKeepsValid(m, DataProcessor.SimulatedSample(m.lastData, nowMs, randomSent, randomRecv), nowMs);
  }

  /** Processing never looks at the two flags. */
  lemma ProcessIgnoresFlags(m: Monitor, running: bool, subscribed: bool, s: Sample, nowMs: int)
    ensures ProcessData(m.(isRunning := running, isSubscribed := subscribed), s, nowMs)
         == ProcessData(m, s, nowMs).(isRunning := running, isSubscribed := subscribed)
  {
    var f := m.(isRunning := running, isSubscribed := subscribed);
    if Advances(m, s) {
      var dt := s.timestamp - m.lastData.timestamp;
      var up := Growth(m.lastData.bytesSent, s.bytesSent) / dt;
      var down := Growth(m.lastData.bytesRecv, s.bytesRecv) / dt;
      var sent := m.totalSent + Growth(m.lastData.bytesSent, s.bytesSent);
      var recv := m.totalReceived + Growth(m.lastData.bytesRecv, s.bytesRecv);
      var upData := History.Push(m.uploadData, up, MAX_DATA_POINTS);
      var downData := History.Push(m.downloadData, down, MAX_DATA_POINTS);
      var traffic := TrafficStats.AddDataPoint(m.traffic, nowMs, up, down, nowMs);
      assert ProcessData(m, s, nowMs)
          == m.(uploadSpeed := up, downloadSpeed := down, totalSent := sent,
                totalReceived := recv, uploadData := upData, downloadData := downData,
                traffic := traffic, lastData := s, bytesSentSinceReboot := s.bytesSent,
                bytesReceivedSinceReboot := s.bytesRecv);
      assert ProcessData(f, s, nowMs)
          == f.(uploadSpeed := up, downloadSpeed := down, totalSent := sent,
                totalReceived := recv, uploadData := upData, downloadData := downData,
                traffic := traffic, lastData := s, bytesSentSinceReboot := s.bytesSent,
                bytesReceivedSinceReboot := s.bytesRecv);
    }
  }

  /** Handling a payload never looks at the two flags, and leaves them as
      they were. */
  lemma HandleIgnoresFlags(m: Monitor, running: bool, subscribed: bool, data: Option<Metrics>,
                           nowMs: int, randomSent: real, randomRecv: real)
    requires 0.0 <= randomSent < 1.0 && 0.0 <= randomRecv < 1.0
    ensures HandleData(m.(isRunning := running, isSubscribed := subscribed), data, nowMs,
                       randomSent, randomRecv)
         == HandleData(m, data, nowMs, randomSent, randomRecv)
              .(isRunning := running, isSubscribed := subscribed)
  {
    var f := m.(isRunning := running, isSubscribed := subscribed);
    assert f.lastData == m.lastData;
    var s := match DataProcessor.HandleData(data)
             case Process(s) => s
             case Simulate => DataProcessor.SimulatedSample(m.lastData, nowMs, randomSent, randomRecv);
    assert HandleData(f, data, nowMs, randomSent, randomRecv) == ProcessData(f, s, nowMs);
    assert HandleData(m, data, nowMs, randomSent, randomRecv) == ProcessData(m, s, nowMs);
    ProcessIgnoresFlags(m, running, subscribed, s, nowMs);
  }

  /** `simulateData`: process a made-up sample that continues the counters. */
  function SimulateData(m: Monitor, nowMs: int, randomSent: real, randomRecv: real): (r: Monitor)
    requires 0.0 <= randomSent < 1.0 && 0.0 <= randomRecv < 1.0
    ensures r.lastData.bytesSent - m.lastData.bytesSent >= 102400.0
    ensures r.lastData.bytesRecv - m.lastData.bytesRecv >= 102400.0
    ensures Advances(m, r.lastData) ==> r.totalSent - m.totalSent >= 102400.0
    ensures Advances(m, r.lastData) ==> r.totalReceived - m.totalReceived >= 102400.0
  {
    ProcessData(m, DataProcessor.SimulatedSample(m.lastData, nowMs, randomSent, randomRecv), nowMs)
  }

  /** After the hub gives up it broadcasts its error payload; the widget
      keeps moving on simulated traffic instead of freezing. */
  lemma ErrorPayloadKeepsTrafficFlowing(m: Monitor, nowMs: int, randomSent: real, randomRecv: real)
    requires 0.0 <= randomSent < 1.0 && 0.0 <= randomRecv < 1.0
    requires m.lastData.timestamp != 0.0 && ((nowMs / 1000) as real) > m.lastData.timestamp
    ensures var r := HandleData(m, Some(ErrorPayload), nowMs, randomSent, randomRecv);
            r.totalSent - m.totalSent >= 102400.0 && r.uploadSpeed > 0.0
  {
    DataProcessor.ErrorPayloadIsSimulated();
    var s := DataProcessor.SimulatedSample(m.lastData, nowMs, randomSent, randomRecv);
    assert Advances(m, s);
    GrowthGivesSpeed(m, s, nowMs);
  }

  /** Sub-byte speeds are reachable: one byte over two seconds is 0.5 B/s,
      which `formatBytes` as written prints without a unit. */
  lemma FractionalSpeedIsReachable(m: Monitor, nowMs: int)
    requires m.lastData == DataProcessor.Sample(1.0, 0.0, 0.0)
    ensures var r := ProcessData(m, DataProcessor.Sample(3.0, 1.0, 0.0), nowMs);
            r.uploadSpeed == 0.5 && DisplayUtils.FormatBytesAsWritten(r.uploadSpeed).unit.None?
  {
    var r := ProcessData(m, DataProcessor.Sample(3.0, 1.0, 0.0), nowMs);
    assert r.uploadSpeed * 2.0 == 1.0;
    DisplayUtils.FractionalRateHasNoUnit();
  }

  /** A sample that advances the clock and the sent counter yields a
      positive upload speed. */
  lemma GrowthGivesSpeed(m: Monitor, s: Sample, nowMs: int)
    requires Advances(m, s) && s.bytesSent > m.lastData.bytesSent
    ensures ProcessData(m, s, nowMs).uploadSpeed > 0.0
  {
    var r := ProcessData(m, s, nowMs);
    RealArith.ProductSign(r.uploadSpeed, s.timestamp - m.lastData.timestamp);
  }

  // ---------------------------------------------------------------------
  // Peaks and the chart scale
  // ---------------------------------------------------------------------

  /** `Math.max(...buf, 0)`: the largest entry, or zero. */
  function Peak(buf: seq<real>): (r: real)
    ensures r >= 0.0
    ensures forall i :: 0 <= i < |buf| ==> buf[i] <= r
    ensures r == 0.0 || r in buf
    decreases |buf|
  {
    if |buf| == 0 then 0.0
    else
      var rest := Peak(buf[1..]);
      assert forall i :: 1 <= i < |buf| ==> buf[i] == buf[1..][i - 1];
      if buf[0] > rest then buf[0] else rest
  }

  /** `draw`'s vertical scale: the larger peak, or the default when both
      are zero. */
  function ChartMax(uploadData: seq<real>, downloadData: seq<real>): (r: real)
    ensures r > 0.0
    ensures forall i :: 0 <= i < |uploadData| ==> uploadData[i] <= r
    ensures forall i :: 0 <= i < |downloadData| ==> downloadData[i] <= r
    ensures r == DEFAULT_CHART_MAX || r in uploadData || r in downloadData
  {
    var peak := if Peak(uploadData) > Peak(downloadData) then Peak(uploadData) else Peak(downloadData);
    if peak == 0.0 then DEFAULT_CHART_MAX else peak
  }

  /** An idle chart (every speed zero) uses the default scale. */
  lemma IdleChartUsesDefault(uploadData: seq<real>, downloadData: seq<real>)
    requires forall i :: 0 <= i < |uploadData| ==> uploadData[i] <= 0.0
    requires forall i :: 0 <= i < |downloadData| ==> downloadData[i] <= 0.0
    ensures ChartMax(uploadData, downloadData) == DEFAULT_CHART_MAX
  {
    assert forall x :: x in uploadData ==> x <= 0.0;
    assert forall x :: x in downloadData ==> x <= 0.0;
  }

  /** Every plotted point of a valid monitor lies inside the plot area:
      its height `value / maxValue` is between zero and one. */
  lemma PlotFitsChart(m: Monitor)
    requires Valid(m)
    ensures var top := ChartMax(m.uploadData, m.downloadData);
            && (forall i :: 0 <= i < |m.uploadData| ==> 0.0 <= m.uploadData[i] / top <= 1.0)
            && (forall i :: 0 <= i < |m.downloadData| ==> 0.0 <= m.downloadData[i] / top <= 1.0)
  {
    var top := ChartMax(m.uploadData, m.downloadData);
    forall i | 0 <= i < |m.uploadData| ensures 0.0 <= m.uploadData[i] / top <= 1.0 {
      FractionInUnit(m.uploadData[i], top);
    }
    forall i | 0 <= i < |m.downloadData| ensures 0.0 <= m.downloadData[i] / top <= 1.0 {
      FractionInUnit(m.downloadData[i], top);
    }
  }

  lemma FractionInUnit(x: real, top: real)
    requires 0.0 <= x <= top && top > 0.0
    ensures 0.0 <= x / top <= 1.0
  {
    assert x / top * top == x;
  }

  // ---------------------------------------------------------------------
  // Subscription and the pause button
  // ---------------------------------------------------------------------

  /** A monitor together with the hub it talks to, and the cached payload the
      hub hands to a fresh subscription at once. */
  datatype Hookup = Hookup(monitor: Monitor, hub: ApiManager.Hub, delivered: Option<Metrics>)

  /** The widget's flag and the hub's registry agree. */
  predicate Registered(m: Monitor, hub: ApiManager.Hub)
  {
    m.isSubscribed <==> m.componentId in hub.subscribers
  }

  /** `startMonitoring`: subscribe under the component id unless already
      subscribed. The hub calls the new callback with its cached payload
      inside `subscribe`, so a cached payload goes through `handleData`
      (which may simulate a sample: hence the clock and the random draws)
      before the flag is set. */
  function StartMonitoring(m: Monitor, hub: ApiManager.Hub, nowMs: int,
                           randomSent: real, randomRecv: real): (r: Hookup)
    requires 0.0 <= randomSent < 1.0 && 0.0 <= randomRecv < 1.0
    ensures r.monitor.isSubscribed
    ensures r.monitor.componentId == m.componentId && r.monitor.isRunning == m.isRunning
    ensures Valid(m) ==> Valid(r.monitor)
    ensures Registered(m, hub) ==> m.componentId in r.hub.subscribers
    ensures Registered(m, hub) ==> Registered(r.monitor, r.hub)
    ensures m.isSubscribed ==> r == Hookup(m, hub, None)
    ensures !m.isSubscribed ==>
              && r.hub == ApiManager.Subscribe(hub, m.componentId, ApiManager.Callback(m.componentId)).hub
              && r.delivered == hub.cache
              && (hub.cache.None? ==> r.monitor == m.(isSubscribed := true))
              && (hub.cache.Some? ==>
                    r.monitor == HandleData(m, hub.cache, nowMs, randomSent, randomRecv).(isSubscribed := true))
  {
    if m.isSubscribed then Hookup(m, hub, None)
    else
      var s := ApiManager.Subscribe(hub, m.componentId, ApiManager.Callback(m.componentId));
      var handled :=
        if s.immediate.Some? then HandleData(m, s.immediate, nowMs, randomSent, randomRecv) else m;
      if Valid(m) && s.immediate.Some? then
        HandleKeepsValid(m, s.immediate, nowMs, randomSent, randomRecv);
        Hookup(handled.(isSubscribed := true), s.hub, s.immediate)
      else Hookup(handled.(isSubscribed := true), s.hub, s.immediate)
  }

  /** `stopMonitoring`: unsubscribe if subscribed. */
  function StopMonitoring(m: Monitor, hub: ApiManager.Hub): (r: Hookup)
    ensures !r.monitor.isSubscribed && r.delivered.None?
    ensures Registered(m, hub) ==> Registered(r.monitor, r.hub)
    ensures Registered(m, hub) ==> m.componentId !in r.hub.subscribers
    ensures !m.isSubscribed ==> r == Hookup(m, hub, None)
    ensures m.isSubscribed ==>
              r == Hookup(m.(isSubscribed := false), ApiManager.Unsubscribe(hub, m.componentId), None)
  {
    if m.isSubscribed then
      Hookup(m.(isSubscribed := false), ApiManager.Unsubscribe(hub, m.componentId), None)
    else Hookup(m, hub, None)
  }

  /** `toggleMonitoring`: flip the running flag, then start or stop.
      Pausing only changes the flags; resuming a monitor that was not
      subscribed also handles the hub's cached payload, if there is one. */
  function ToggleMonitoring(m: Monitor, hub: ApiManager.Hub, nowMs: int,
                            randomSent: real, randomRecv: real): (r: Hookup)
    requires 0.0 <= randomSent < 1.0 && 0.0 <= randomRecv < 1.0
    ensures r.monitor.isRunning == !m.isRunning
    ensures r.monitor.isSubscribed == r.monitor.isRunning
    ensures r.monitor.componentId == m.componentId
    ensures Valid(m) ==> Valid(r.monitor)
    ensures Registered(m, hub) ==> Registered(r.monitor, r.hub)
    ensures m.isRunning || m.isSubscribed || hub.cache.None? ==>
              r.monitor.(isRunning := m.isRunning, isSubscribed := m.isSubscribed) == m
    ensures !m.isRunning && !m.isSubscribed && hub.cache.Some? ==>
              r.monitor == HandleData(m, hub.cache, nowMs, randomSent, randomRecv)
                             .(isRunning := true, isSubscribed := true)
  {
    var flipped := m.(isRunning := !m.isRunning);
    if flipped.isRunning then
      HandleIgnoresFlags(m, true, m.isSubscribed, hub.cache, nowMs, randomSent, randomRecv);
      StartMonitoring(flipped, hub, nowMs, randomSent, randomRecv)
    else StopMonitoring(flipped, hub)
  }

  /** Pausing and resuming (or resuming and pausing) a monitor whose
      subscription follows its running flag puts the hub's registry back as
      it was; with nothing cached it puts the monitor back as well. */
  lemma ToggleTwiceRestores(m: Monitor, hub: ApiManager.Hub, nowMs: int,
                            randomSent: real, randomRecv: real)
    requires 0.0 <= randomSent < 1.0 && 0.0 <= randomRecv < 1.0
    requires Registered(m, hub) && m.isSubscribed == m.isRunning
    requires m.componentId in hub.subscribers ==>
               hub.subscribers[m.componentId] == ApiManager.Callback(m.componentId)
    ensures var once := ToggleMonitoring(m, hub, nowMs, randomSent, randomRecv);
            var twice := ToggleMonitoring(once.monitor, once.hub, nowMs, randomSent, randomRecv);
            && twice.hub.subscribers == hub.subscribers
            && (hub.cache.None? ==> twice.monitor == m)
  {
    var id := m.componentId;
    var cb := ApiManager.Callback(id);
    if m.isRunning {
      ApiManager.ResubscribeRestores(hub, id, cb);
    } else {
      ApiManager.SubscribeThenUnsubscribe(hub, id, cb);
    }
  }

  /** Pausing and resuming a running monitor replays the hub's cached
      payload: the monitor ends as if that payload had been delivered once
      more. */
  lemma PauseResumeReplaysCache(m: Monitor, hub: ApiManager.Hub, nowMs: int,
                                randomSent: real, randomRecv: real)
    requires 0.0 <= randomSent < 1.0 && 0.0 <= randomRecv < 1.0
    requires m.isRunning && m.isSubscribed && hub.cache.Some?
    ensures var once := ToggleMonitoring(m, hub, nowMs, randomSent, randomRecv);
            var twice := ToggleMonitoring(once.monitor, once.hub, nowMs, randomSent, randomRecv);
            twice.monitor == HandleData(m, hub.cache, nowMs, randomSent, randomRecv)
  {
    var once := ToggleMonitoring(m, hub, nowMs, randomSent, randomRecv);
    var paused := m.(isRunning := false, isSubscribed := false);
    assert once.monitor == paused;
    assert once.hub.cache == hub.cache;
    HandleIgnoresFlags(m, true, true, hub.cache, nowMs, randomSent, randomRecv);
    HandleIgnoresFlags(paused, true, true, hub.cache, nowMs, randomSent, randomRecv);
  }

  // ---------------------------------------------------------------------
  // Construction
  // ---------------------------------------------------------------------

  /** What `new NetworkMonitor(containerId)` leaves behind: the monitor (none
      when the container is missing and the constructor throws), the class
      counter, the hub, and the payload delivered on subscription. */
  datatype Created = Created(monitor: Option<Monitor>, counter: nat,
                             hub: ApiManager.Hub, delivered: Option<Metrics>)

  /** The constructor. A missing container throws before the counter moves;
      otherwise the id takes the counter's value and the counter advances.
      If the canvas cannot be set up the constructor returns early, so the
      monitor never subscribes although its running flag is set. When it
      does subscribe, the hub's cached payload is handled at once. */
  function Create(counter: nat, hub: ApiManager.Hub, containerFound: bool,
                  canvasReady: bool, nowMs: int, randomSent: real, randomRecv: real): (r: Created)
    requires 0.0 <= randomSent < 1.0 && 0.0 <= randomRecv < 1.0
    ensures r.monitor.None? <==> !containerFound
    ensures !containerFound ==> r.counter == counter && r.hub == hub
    ensures containerFound ==>
              && r.counter == counter + 1
              && r.monitor.value.componentId == ComponentIds.ComponentId(ID_PREFIX, counter)
              && Valid(r.monitor.value) && r.monitor.value.isRunning
              && (r.monitor.value.isSubscribed <==> canvasReady)
              && (canvasReady ==> r.monitor.value.componentId in r.hub.subscribers)
              && (!canvasReady ==> r.hub == hub)
              && (!canvasReady || hub.cache.None? ==> Unprimed(r.monitor.value))
              && (canvasReady && hub.cache.Some? ==>
                    r.monitor.value == HandleData(Fresh(r.monitor.value.componentId), hub.cache,
                                                  nowMs, randomSent, randomRecv).(isSubscribed := true))
  {
    if !containerFound then Created(None, counter, hub, None)
    else
      var m := Fresh(ComponentIds.ComponentId(ID_PREFIX, counter));
      if canvasReady then
        var h := StartMonitoring(m, hub, nowMs, randomSent, randomRecv);
        Created(Some(h.monitor), counter + 1, h.hub, h.delivered)
      else Created(Some(m), counter + 1, hub, None)
  }

  /** A monitor created while the hub already holds a payload starts primed:
      the cached payload (or, if unusable, a simulated sample stamped with
      the current second) becomes its reference sample at once. */
  lemma CachedPayloadPrimesNewMonitor(counter: nat, hub: ApiManager.Hub, nowMs: int,
                                      randomSent: real, randomRecv: real)
    requires 0.0 <= randomSent < 1.0 && 0.0 <= randomRecv < 1.0
    requires hub.cache.Some? && nowMs >= 1000
    ensures var r := Create(counter, hub, true, true, nowMs, randomSent, randomRecv);
            !Unprimed(r.monitor.value)
  {
  }

  /** Two monitors built one after the other get different ids. */
  lemma SuccessiveMonitorsDiffer(counter: nat, hub: ApiManager.Hub, canvasReady: bool,
                                 canvasReady2: bool, nowMs: int, randomSent: real, randomRecv: real)
    requires 0.0 <= randomSent < 1.0 && 0.0 <= randomRecv < 1.0
    ensures var first := Create(counter, hub, true, canvasReady, nowMs, randomSent, randomRecv);
            var second := Create(first.counter, first.hub, true, canvasReady2, nowMs, randomSent, randomRecv);
            first.monitor.value.componentId != second.monitor.value.componentId
  {
    ComponentIds.DistinctCountersDistinctIds(ID_PREFIX, counter, counter + 1);
  }
}
