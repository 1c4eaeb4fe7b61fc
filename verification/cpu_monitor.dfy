/** The CPU widget's data side: the payload guard, the capped load-average
    history, the uptime split into hours, minutes and seconds, the usage
    colour bands, and the subscription toggle. Rendering is not modelled. */
module CpuMonitor {
  import opened Wrappers
  import opened Payload
  import History
  import ApiManager
  import ComponentIds
  import opened RealArith

  const MAX_DATA_POINTS: nat := 100
  const ID_PREFIX: string := "cpuMonitor_"

  /** `cpuData`. Fields other than `loadAvg` hold whatever the last payload
      carried (`None` for a field it lacked); `loadAvg` is the history of
      `load_avg` values, oldest first. */
  datatype CpuData = CpuData(
    percent: Option<Value>,
    perCore: Option<Value>,
    frequencies: Option<Value>,
    loadAvg: seq<Option<Value>>,
    stats: Option<Value>,
    count: Option<Value>,
    times: Option<Value>)

  datatype Monitor = Monitor(
    componentId: string,
    cpuData: CpuData,
    loadHistory: seq<Option<Value>>,
    isSubscribed: bool)

  /** The `cpuData` the constructor sets up. */
  const InitialData: CpuData :=
    CpuData(Some(Num(0.0)), Some(Arr([])), Some(Arr([])), [],
            Some(Obj(map[])), Some(Obj(map[])), Some(Obj(map[])))

  /** What every reachable monitor satisfies: `loadHistory` is the very list
      `loadAvg` is, and it never holds more than one hundred entries. */
  predicate Valid(m: Monitor)
  {
    m.loadHistory == m.cpuData.loadAvg && |m.cpuData.loadAvg| <= MAX_DATA_POINTS
  }

  /** `processData`: copy the scalar fields, append `load_avg` to the
      history (dropping the oldest past one hundred), and point
      `loadHistory` at the history. */
  function ProcessData(m: Monitor, cpu: CpuFields): (r: Monitor)
    ensures r.cpuData.percent == cpu.percent && r.cpuData.perCore == cpu.perCpuPercent
    ensures r.cpuData.frequencies == cpu.frequencies && r.cpuData.stats == cpu.stats
    ensures r.cpuData.count == cpu.count && r.cpuData.times == cpu.times
    ensures r.loadHistory == r.cpuData.loadAvg
    ensures |r.cpuData.loadAvg| > 0 && r.cpuData.loadAvg[|r.cpuData.loadAvg| - 1] == cpu.loadAvg
    ensures |m.cpuData.loadAvg| < MAX_DATA_POINTS ==>
              r.cpuData.loadAvg == m.cpuData.loadAvg + [cpu.loadAvg]
    ensures |m.cpuData.loadAvg| >= MAX_DATA_POINTS ==>
              r.cpuData.loadAvg == m.cpuData.loadAvg[1..] + [cpu.loadAvg]
    ensures r.componentId == m.componentId && r.isSubscribed == m.isSubscribed
  {
    var history := History.Push(m.cpuData.loadAvg, cpu.loadAvg, MAX_DATA_POINTS);
    assert history == history[..|history| - 1] + [cpu.loadAvg];
    var data := CpuData(cpu.percent, cpu.perCpuPercent, cpu.frequencies, history,
                        cpu.stats, cpu.count, cpu.times);
    m.(cpuData := data, loadHistory := history)
  }

  /** Processing keeps the history aliased and capped. */
  lemma ProcessKeepsValid(m: Monitor, cpu: CpuFields)
    requires Valid(m)
    ensures Valid(ProcessData(m, cpu))
    ensures |m.cpuData.loadAvg| == MAX_DATA_POINTS ==>
              |ProcessData(m, cpu).cpuData.loadAvg| == MAX_DATA_POINTS
  {
    History.PushLength(m.cpuData.loadAvg, cpu.loadAvg, MAX_DATA_POINTS);
  }

  /** `handleData`: a missing payload or one without `cpu` is reported and
      otherwise ignored; anything else is processed. */
  function HandleData(m: Monitor, data: Option<Metrics>): (r: Monitor)
    ensures data.None? || data.value.cpu.None? ==> r == m
    ensures data.Some? && data.value.cpu.Some? ==> r == ProcessData(m, data.value.cpu.value)
  {
    if data.None? || data.value.cpu.None? then m
    else ProcessData(m, data.value.cpu.value)
  }

  /** The hub's error payload carries no `cpu` object, so it leaves the
      widget's data as it was. */
  lemma ErrorPayloadIgnored(m: Monitor)
    ensures HandleData(m, Some(ErrorPayload)) == m
  {
    ErrorPayloadIsRecognised();
  }

  /** A run of payloads that all carry `cpu` keeps the last hundred load
      averages, in the order they arrived. */
  function LoadAverages(payloads: seq<CpuFields>): (r: seq<Option<Value>>)
    ensures |r| == |payloads|
    ensures forall i :: 0 <= i < |payloads| ==> r[i] == payloads[i].loadAvg
  {
    seq(|payloads|, i requires 0 <= i < |payloads| => payloads[i].loadAvg)
  }

  function ProcessAll(m: Monitor, payloads: seq<CpuFields>): (r: Monitor)
    decreases |payloads|
  {
    if |payloads| == 0 then m else ProcessAll(ProcessData(m, payloads[0]), payloads[1..])
  }

  /** After any run of payloads the history is the last (at most one
      hundred) load averages of the old history followed by the new ones. */
  lemma {:induction false} HistoryIsSuffix(m: Monitor, payloads: seq<CpuFields>)
    requires |m.cpuData.loadAvg| <= MAX_DATA_POINTS
    ensures var all := m.cpuData.loadAvg + LoadAverages(payloads);
            ProcessAll(m, payloads).cpuData.loadAvg == LastAtMost(all, MAX_DATA_POINTS)
    decreases |payloads|
  {
    if |payloads| > 0 {
      var next := ProcessData(m, payloads[0]);
      var rest := LoadAverages(payloads[1..]);
      History.PushLength(m.cpuData.loadAvg, payloads[0].loadAvg, MAX_DATA_POINTS);
      HistoryIsSuffix(next, payloads[1..]);
      assert LoadAverages(payloads) == [payloads[0].loadAvg] + rest;
      PushThenKeep(m.cpuData.loadAvg, payloads[0].loadAvg, rest, MAX_DATA_POINTS);
    }
  }

  /** One push, then keeping the last `n`, is keeping the last `n` of the
      whole. */
  lemma PushThenKeep<T>(buf: seq<T>, x: T, rest: seq<T>, n: nat)
    requires 0 < n && |buf| <= n
    ensures LastAtMost(History.Push(buf, x, n) + rest, n) == LastAtMost(buf + ([x] + rest), n)
  {
    var all := buf + ([x] + rest);
    var pushed := History.Push(buf, x, n);
    if |buf| < n {
      assert pushed == buf + [x];
      assert pushed + rest == all;
    } else {
      assert pushed == (buf + [x])[1..];
      assert pushed + rest == all[1..];
      LastAtMostOfTail(all, n);
    }
  }

  /** The last `n` entries of `s`, or all of them when there are fewer. */
  function LastAtMost<T>(s: seq<T>, n: nat): (r: seq<T>)
    ensures |r| <= n && |r| <= |s|
    ensures |s| <= n ==> r == s
  {
    if |s| <= n then s else s[|s| - n..]
  }

  lemma LastAtMostOfTail<T>(s: seq<T>, n: nat)
    requires |s| > n
    ensures LastAtMost(s[1..], n) == LastAtMost(s, n)
  {
    assert s[1..][|s| - 1 - n..] == s[|s| - n..];
  }

  // ---------------------------------------------------------------------
  // Uptime and colours
  // ---------------------------------------------------------------------

  /** JavaScript's truncating `Math.trunc`. */
  function Trunc(x: real): (r: int)
    ensures x >= 0.0 ==> 0 <= r && r as real <= x < r as real + 1.0
    ensures x < 0.0 ==> r <= 0 && r as real - 1.0 < x <= r as real
  {
    if x >= 0.0 then x.Floor else -((-x).Floor)
  }

  /** JavaScript's `%` on numbers: the remainder of the truncated quotient,
      which takes the sign of the dividend. */
  function JsMod(x: real, d: real): (r: real)
    requires d > 0.0
    ensures x >= 0.0 ==> 0.0 <= r < d
    ensures x < 0.0 ==> -d < r <= 0.0
    ensures x == (Trunc(x / d) as real) * d + r
  {
    var q := Trunc(x / d);
    JsModBounds(x, d, q);
    x - (q as real) * d
  }

  lemma JsModBounds(x: real, d: real, q: int)
    requires d > 0.0 && q == Trunc(x / d)
    ensures x >= 0.0 ==> 0.0 <= x - (q as real) * d < d
    ensures x < 0.0 ==> -d < x - (q as real) * d <= 0.0
  {
    var y := x / d;
    assert y * d == x;
    if x >= 0.0 {
      Scale(q as real, y, d, x);
    } else {
      Scale((q - 1) as real, y, d, x);
    }
  }

  /** The three numbers `formatTime` prints. */
  datatype Clock = Clock(hours: int, minutes: int, seconds: int)

  /** `formatTime`: whole hours, then whole minutes of the remainder below an
      hour, then whole seconds of the remainder below a minute. */
  function FormatTime(seconds: real): (r: Clock)
    ensures seconds >= 0.0 ==>
              && r.hours >= 0
              && 0 <= r.minutes < 60 && 0 <= r.seconds < 60
              && r.hours * 3600 + r.minutes * 60 + r.seconds == seconds.Floor
  {
    var c := Clock((seconds / 3600.0).Floor, (JsMod(seconds, 3600.0) / 60.0).Floor,
                   JsMod(seconds, 60.0).Floor);
    if seconds >= 0.0 then
      FormatTimeSplits(seconds);
      c
    else c
  }

  /** The split recombines to the whole seconds it started from. */
  lemma FormatTimeSplits(x: real)
    requires x >= 0.0
    ensures var h := (x / 3600.0).Floor;
            var m := (JsMod(x, 3600.0) / 60.0).Floor;
            var s := JsMod(x, 60.0).Floor;
            h >= 0 && 0 <= m < 60 && 0 <= s < 60 && h * 3600 + m * 60 + s == x.Floor
  {
    var n := x.Floor;
    var frac := x - n as real;
    var h := (x / 3600.0).Floor;
    FloorQuotient(x, 3600);
    assert h == n / 3600;
    var a := JsMod(x, 3600.0);
    assert a == x - (h as real) * 3600.0;
    assert a == ((n % 3600) as real) + frac;
    assert a.Floor == n % 3600;
    var m := (a / 60.0).Floor;
    FloorQuotient(a, 60);
    assert m == (n % 3600) / 60;
    var b := JsMod(x, 60.0);
    FloorQuotient(x, 60);
    assert b == x - ((n / 60) as real) * 60.0;
    assert b == ((n % 60) as real) + frac;
    var s := b.Floor;
    assert s == n % 60;
    DivModSplit(n);
  }

  /** Flooring a quotient by a positive whole number commutes with flooring
      the dividend. */
  lemma FloorQuotient(x: real, d: int)
    requires x >= 0.0 && d > 0
    ensures (x / (d as real)).Floor == x.Floor / d
  {
    var n := x.Floor;
    var q := n / d;
    assert q * d <= n < q * d + d;
    assert (q * d) as real <= x < (q * d + d) as real;
    assert (q as real) * (d as real) <= x < ((q + 1) as real) * (d as real);
    var y := x / (d as real);
    Scale(q as real, y, d as real, x);
  }

  lemma DivModSplit(n: int)
    requires n >= 0
    ensures (n / 3600) * 3600 + ((n % 3600) / 60) * 60 + n % 60 == n
  {
    var h := n / 3600;
    var r := n % 3600;
    assert n == h * 3600 + r;
    var m := r / 60;
    var s := r % 60;
    assert r == m * 60 + s;
    assert n == (h * 60 + m) * 60 + s;
    RemainderBySixty(h * 60 + m, s);
  }

  /** The remainder by 60 of `k * 60 + s`, for `s` below 60, is `s`. */
  lemma RemainderBySixty(k: int, s: int)
    requires 0 <= s < 60
    ensures (k * 60 + s) % 60 == s
  {
    var n := k * 60 + s;
    assert n == (n / 60) * 60 + n % 60;
    assert (n / 60 - k) * 60 == s - n % 60;
  }

  const RED: string := "#EF4444"
  const ORANGE: string := "#F59E0B"
  const GREEN: string := "#10B981"
  const BLUE: string := "#60A5FA"

  /** `getUsageColor`: the band a usage percentage falls in. */
  function GetUsageColor(percent: real): (r: string)
    ensures r == RED <==> percent >= 90.0
    ensures r == ORANGE <==> 70.0 <= percent < 90.0
    ensures r == GREEN <==> 50.0 <= percent < 70.0
    ensures r == BLUE <==> percent < 50.0
  {
    if percent >= 90.0 then RED
    else if percent >= 70.0 then ORANGE
    else if percent >= 50.0 then GREEN
    else BLUE
  }

  /** How alarming a colour is, from blue (0) to red (3). */
  function Severity(color: string): (r: nat)
    ensures r <= 3
  {
    if color == RED then 3
    else if color == ORANGE then 2
    else if color == GREEN then 1
    else 0
  }

  /** A higher usage never gets a calmer colour. */
  lemma UsageColorMonotone(p: real, q: real)
    requires p <= q
    ensures Severity(GetUsageColor(p)) <= Severity(GetUsageColor(q))
  {
  }

  // ---------------------------------------------------------------------
  // Subscription
  // ---------------------------------------------------------------------

  /** A monitor together with the hub it talks to, and the cached payload the
      hub handed to a fresh subscription (already applied to the monitor). */
  datatype Hookup = Hookup(monitor: Monitor, hub: ApiManager.Hub, delivered: Option<Metrics>)

  predicate Registered(m: Monitor, hub: ApiManager.Hub)
  {
    m.isSubscribed <==> m.componentId in hub.subscribers
  }

  /** `subscribeToAPI`: register the bound `handleData` and set the flag.
      The hub calls the new callback with its cached payload inside
      `subscribe`, so a cached payload is handled before the flag is set. */
  function SubscribeToApi(m: Monitor, hub: ApiManager.Hub): (r: Hookup)
    ensures r.monitor.componentId == m.componentId && r.monitor.isSubscribed
    ensures hub.cache.None? ==> r.monitor == m.(isSubscribed := true)
    ensures hub.cache.Some? ==> r.monitor == HandleData(m, hub.cache).(isSubscribed := true)
    ensures Valid(m) ==> Valid(r.monitor)
    ensures Registered(r.monitor, r.hub)
    ensures r.hub.subscribers[m.componentId] == ApiManager.Callback(m.componentId)
    ensures forall k :: k != m.componentId ==> (k in r.hub.subscribers <==> k in hub.subscribers)
    ensures r.delivered == hub.cache
  {
    var s := ApiManager.Subscribe(hub, m.componentId, ApiManager.Callback(m.componentId));
    var handled := if s.immediate.Some? then HandleData(m, s.immediate) else m;
    HandleKeepsValid(m, s.immediate);
    Hookup(handled.(isSubscribed := true), s.hub, s.immediate)
  }

  /** Handling a payload keeps a valid monitor valid and never touches its
      identity or its subscription flag. */
  lemma HandleKeepsValid(m: Monitor, data: Option<Metrics>)
    ensures HandleData(m, data).componentId == m.componentId
    ensures HandleData(m, data).isSubscribed == m.isSubscribed
    ensures Valid(m) ==> Valid(HandleData(m, data))
  {
    if Valid(m) && data.Some? && data.value.cpu.Some? {
      ProcessKeepsValid(m, data.value.cpu.value);
    }
  }

  /** `unsubscribeFromAPI`: drop the registration and clear the flag. */
  function UnsubscribeFromApi(m: Monitor, hub: ApiManager.Hub): (r: Hookup)
    ensures r.monitor == m.(isSubscribed := false)
    ensures Registered(r.monitor, r.hub) && r.delivered.None?
    ensures forall k :: k != m.componentId ==> (k in r.hub.subscribers <==> k in hub.subscribers)
  {
    Hookup(m.(isSubscribed := false), ApiManager.Unsubscribe(hub, m.componentId), None)
  }

  /** `toggleMonitoring`: flip the flag, then subscribe or unsubscribe to
      match it. Pausing only changes the flag; resuming also handles the
      hub's cached payload, if there is one. */
  function ToggleMonitoring(m: Monitor, hub: ApiManager.Hub): (r: Hookup)
    ensures r.monitor.isSubscribed == !m.isSubscribed
    ensures r.monitor.componentId == m.componentId
    ensures m.isSubscribed || hub.cache.None? ==> r.monitor.(isSubscribed := m.isSubscribed) == m
    ensures !m.isSubscribed && hub.cache.Some? ==>
              r.monitor == HandleData(m, hub.cache).(isSubscribed := true)
    ensures Registered(r.monitor, r.hub)
  {
    var flipped := m.(isSubscribed := !m.isSubscribed);
    if flipped.isSubscribed then
      HandleKeepsValid(flipped, hub.cache);
      SubscribeToApi(flipped, hub)
    else UnsubscribeFromApi(flipped, hub)
  }

  /** Toggling twice restores the hub's registry, given the registration
      matched the flag to begin with; with nothing cached it restores the
      widget as well. */
  lemma ToggleTwiceRestores(m: Monitor, hub: ApiManager.Hub)
    requires Registered(m, hub)
    requires m.componentId in hub.subscribers ==>
               hub.subscribers[m.componentId] == ApiManager.Callback(m.componentId)
    ensures var once := ToggleMonitoring(m, hub);
            var twice := ToggleMonitoring(once.monitor, once.hub);
            twice.hub.subscribers == hub.subscribers
    ensures hub.cache.None? ==>
              ToggleMonitoring(ToggleMonitoring(m, hub).monitor, ToggleMonitoring(m, hub).hub).monitor == m
  {
    var id := m.componentId;
    var cb := ApiManager.Callback(id);
    if m.isSubscribed {
      ApiManager.ResubscribeRestores(hub, id, cb);
    } else {
      ApiManager.SubscribeThenUnsubscribe(hub, id, cb);
    }
  }

  /** Pausing and resuming a subscribed widget replays the hub's cached
      payload: the widget ends as if that payload had arrived once more, so
      a cached `cpu` object appends its load average to the history again. */
  lemma PauseResumeReplaysCache(m: Monitor, hub: ApiManager.Hub)
    requires m.isSubscribed && Registered(m, hub)
    requires hub.subscribers[m.componentId] == ApiManager.Callback(m.componentId)
    ensures var once := ToggleMonitoring(m, hub);
            var twice := ToggleMonitoring(once.monitor, once.hub);
            && twice.monitor == HandleData(m, hub.cache)
            && (hub.cache.Some? && hub.cache.value.cpu.Some? ==>
                  var h := twice.monitor.cpuData.loadAvg;
                  |h| > 0 && h[|h| - 1] == hub.cache.value.cpu.value.loadAvg)
  {
    var once := ToggleMonitoring(m, hub);
    assert once.monitor == m.(isSubscribed := false);
    assert once.hub.cache == hub.cache;
    HandleKeepsValid(m, hub.cache);
  }

  // ---------------------------------------------------------------------
  // Construction
  // ---------------------------------------------------------------------

  datatype Created = Created(monitor: Option<Monitor>, counter: nat,
                             hub: ApiManager.Hub, delivered: Option<Metrics>)

  /** The constructor. A missing container is logged and the constructor
      returns before the id is drawn, so the counter does not move and
      nothing subscribes; otherwise the widget takes the next id, starts
      from the initial data and subscribes at once, handling the hub's
      cached payload if there is one. */
  function Create(counter: nat, hub: ApiManager.Hub, containerFound: bool): (r: Created)
    ensures r.monitor.None? <==> !containerFound
    ensures !containerFound ==> r.counter == counter && r.hub == hub
    ensures containerFound ==>
              && r.counter == counter + 1
              && r.monitor.value.componentId == ComponentIds.ComponentId(ID_PREFIX, counter)
              && Valid(r.monitor.value)
              && r.monitor.value.isSubscribed
              && Registered(r.monitor.value, r.hub)
              && (hub.cache.None? ==> r.monitor.value.cpuData == InitialData)
              && (hub.cache.Some? && hub.cache.value.cpu.Some? ==>
                    r.monitor.value.cpuData.loadAvg == [hub.cache.value.cpu.value.loadAvg])
              && (hub.cache.Some? && hub.cache.value.cpu.None? ==>
                    r.monitor.value.cpuData == InitialData)
              && r.monitor.value
                 == HandleData(Monitor(ComponentIds.ComponentId(ID_PREFIX, counter), InitialData, [], false),
                               hub.cache).(isSubscribed := true)
  {
    if !containerFound then Created(None, counter, hub, None)
    else
      var m := Monitor(ComponentIds.ComponentId(ID_PREFIX, counter), InitialData, [], false);
      var h := SubscribeToApi(m, hub);
      Created(Some(h.monitor), counter + 1, h.hub, h.delivered)
  }

  /** CPU and network widgets never collide in the hub's registry. */
  lemma CpuIdsDifferFromNetworkIds(a: nat, b: nat)
    ensures ComponentIds.ComponentId(ID_PREFIX, a) != ComponentIds.ComponentId("networkMonitor_", b)
  {
    ComponentIds.DifferentPrefixesDistinctIds(ID_PREFIX, "networkMonitor_", a, b);
  }
}
