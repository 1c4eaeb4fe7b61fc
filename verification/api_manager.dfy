/** The polling hub: one fetch loop shared by every widget, a one-entry cache
    of the last payload, and a registry of subscriber callbacks. Each poll
    cycle is one atomic step: the clock, the fetch outcome and the fetch's
    completion time are parameters, and the timer the source arms is the
    step's `next` output (the delay before the next cycle, if any). */
module ApiManager {
  import opened Wrappers
  import opened Payload

  /** A subscriber's callback, identified by the widget it belongs to. */
  datatype Callback = Callback(owner: string)

  datatype Hub = Hub(
    baseUrl: string,
    cache: Option<Metrics>,
    subscribers: map<string, Callback>,
    updateInterval: int,
    isRunning: bool,
    lastFetchTime: int,
    retryTimeout: int,
    maxRetries: int,
    currentRetries: int)

  const DEFAULT_UPDATE_INTERVAL: int := 1000
  const DEFAULT_RETRY_TIMEOUT: int := 5000
  const DEFAULT_MAX_RETRIES: int := 3

  /** The hub as constructed, before the base URL has been resolved. */
  const InitialHub: Hub :=
    Hub("", None, map[], DEFAULT_UPDATE_INTERVAL, false, 0,
        DEFAULT_RETRY_TIMEOUT, DEFAULT_MAX_RETRIES, 0)

  /** Polling is active exactly when somebody is subscribed. */
  predicate RunningMatchesSubscribers(hub: Hub)
  {
    hub.isRunning <==> |hub.subscribers| > 0
  }

  /** The retry counter stays within its configured bound. */
  predicate RetriesInRange(hub: Hub)
  {
    0 <= hub.currentRetries <= hub.maxRetries
  }

  // ---------------------------------------------------------------------
  // Starting and stopping
  // ---------------------------------------------------------------------

  datatype StartResult = StartResult(hub: Hub, startsCycle: bool)

  /** `startPolling`: a no-op while running; otherwise mark the hub running
      and run a poll cycle at once. */
  function StartPolling(hub: Hub): (r: StartResult)
    ensures r.hub.isRunning
    ensures r.startsCycle <==> !hub.isRunning
    ensures r.hub == hub.(isRunning := true)
  {
    if hub.isRunning then StartResult(hub, false)
    else StartResult(hub.(isRunning := true), true)
  }

  /** `stopPolling`: clear the running flag; a cycle whose timer still fires
      then does nothing (see `PollCycle`). */
  function StopPolling(hub: Hub): (r: Hub)
    ensures !r.isRunning
    ensures r.(isRunning := hub.isRunning) == hub
  {
    hub.(isRunning := false)
  }

  // ---------------------------------------------------------------------
  // Subscriptions
  // ---------------------------------------------------------------------

  /** What a `subscribe` call does: the new hub state, whether it started the
      poll loop, and the cached payload handed to the new callback at once. */
  datatype SubscribeResult = SubscribeResult(hub: Hub, startsCycle: bool, immediate: Option<Metrics>)

  function Subscribe(hub: Hub, id: string, callback: Callback): (r: SubscribeResult)
    ensures id in r.hub.subscribers && r.hub.subscribers[id] == callback
    ensures forall k :: k != id ==> (k in r.hub.subscribers <==> k in hub.subscribers)
    ensures forall k :: k != id && k in hub.subscribers ==> r.hub.subscribers[k] == hub.subscribers[k]
    ensures r.immediate.Some? <==> hub.cache.Some?
    ensures hub.cache.Some? ==> r.immediate.value == hub.cache.value
    ensures r.startsCycle <==> !hub.isRunning && r.hub.subscribers.Keys == {id}
    ensures r.hub.isRunning
            == (hub.isRunning || r.hub.subscribers.Keys == {id})
    ensures r.hub.(subscribers := hub.subscribers, isRunning := hub.isRunning) == hub
  {
    var subs := hub.subscribers[id := callback];
    var registered := hub.(subscribers := subs);
    SingletonMap(subs, id);
    var started :=
      if |subs| == 1 && !hub.isRunning then StartPolling(registered)
      else StartResult(registered, false);
    SubscribeResult(started.hub, started.startsCycle, hub.cache)
  }

  /** A map has exactly one entry iff its keys are exactly that one key. */
  lemma SingletonMap<V>(m: map<string, V>, id: string)
    requires id in m
    ensures |m| == 1 <==> m.Keys == {id}
  {
    if |m| == 1 {
      forall k | k in m ensures k == id {
        if k != id {
          assert {id, k} <= m.Keys;
          assert |{id, k}| == 2;
          SubsetCardinality({id, k}, m.Keys);
        }
      }
    }
  }

  lemma SubsetCardinality<T>(a: set<T>, b: set<T>)
    requires a <= b
    ensures |a| <= |b|
  {
    assert b == a + (b - a);
  }

  /** `unsubscribe`: drop the id; stop polling once nobody is left. */
  function Unsubscribe(hub: Hub, id: string): (r: Hub)
    ensures id !in r.subscribers
    ensures forall k :: k != id ==> (k in r.subscribers <==> k in hub.subscribers)
    ensures forall k :: k != id && k in hub.subscribers ==> r.subscribers[k] == hub.subscribers[k]
    ensures |r.subscribers| == 0 ==> !r.isRunning
    ensures |r.subscribers| > 0 ==> r.isRunning == hub.isRunning
    ensures r.(subscribers := hub.subscribers, isRunning := hub.isRunning) == hub
  {
    var subs := hub.subscribers - {id};
    var removed := hub.(subscribers := subs);
    if |subs| == 0 then StopPolling(removed) else removed
  }

  /** Unsubscribing an id and subscribing it again with the same callback
      leaves the registry as it was. */
  lemma ResubscribeRestores(hub: Hub, id: string, callback: Callback)
    requires id in hub.subscribers && hub.subscribers[id] == callback
    ensures Subscribe(Unsubscribe(hub, id), id, callback).hub.subscribers == hub.subscribers
  {
    var r := Subscribe(Unsubscribe(hub, id), id, callback).hub.subscribers;
    assert r.Keys == hub.subscribers.Keys;
  }

  /** Subscribing a new id and unsubscribing it again leaves the registry as
      it was. */
  lemma SubscribeThenUnsubscribe(hub: Hub, id: string, callback: Callback)
    requires id !in hub.subscribers
    ensures Unsubscribe(Subscribe(hub, id, callback).hub, id).subscribers == hub.subscribers
  {
    var r := Unsubscribe(Subscribe(hub, id, callback).hub, id).subscribers;
    assert r.Keys == hub.subscribers.Keys;
  }

  /** `subscribe` keeps polling active exactly while somebody is subscribed. */
  lemma SubscribeKeepsRunningMatches(hub: Hub, id: string, callback: Callback)
    requires RunningMatchesSubscribers(hub)
    ensures RunningMatchesSubscribers(Subscribe(hub, id, callback).hub)
  {
    var r := Subscribe(hub, id, callback).hub;
    if !hub.isRunning {
      assert hub.subscribers == map[];
      assert r.subscribers.Keys == {id};
    }
    assert id in r.subscribers;
  }

  /** `unsubscribe` keeps polling active exactly while somebody is subscribed. */
  lemma UnsubscribeKeepsRunningMatches(hub: Hub, id: string)
    requires RunningMatchesSubscribers(hub)
    ensures RunningMatchesSubscribers(Unsubscribe(hub, id))
  {
    var r := Unsubscribe(hub, id);
    if |r.subscribers| > 0 {
      var k :| k in r.subscribers;
      assert k in hub.subscribers;
    }
  }

  // ---------------------------------------------------------------------
  // The poll cycle
  // ---------------------------------------------------------------------

  /** What the transport produced for one fetch attempt. */
  datatype FetchOutcome = Fetched(payload: Metrics) | FetchFailed

  /** `fetchData`: with no base URL the fetch fails whatever the network would
      have answered; otherwise the transport's outcome stands. */
  function FetchData(hub: Hub, transport: FetchOutcome): (r: FetchOutcome)
    ensures hub.baseUrl == "" ==> r.FetchFailed?
    ensures hub.baseUrl != "" ==> r == transport
  {
    if hub.baseUrl == "" then FetchFailed else transport
  }

  /** The same payload for every current subscriber. */
  function Broadcast(subscribers: map<string, Callback>, payload: Metrics): (r: map<string, Metrics>)
    ensures r.Keys == subscribers.Keys
    ensures forall id :: id in r ==> r[id] == payload
  {
    map id | id in subscribers :: payload
  }

  /** One poll cycle's effect: the new state, the delay until the next cycle
      (`None` when no cycle is scheduled), and the payload each subscriber's
      callback receives. */
  datatype CycleResult = CycleResult(hub: Hub, next: Option<int>, notified: map<string, Metrics>)

  /** `pollData`, started at `now`; the fetch (if one is made) completes at
      `doneAt` with `transport`. */
  function PollCycle(hub: Hub, now: int, doneAt: int, transport: FetchOutcome): (r: CycleResult)
    ensures r.hub.subscribers == hub.subscribers && r.hub.isRunning == hub.isRunning
    ensures r.notified == map[] || r.notified.Keys == hub.subscribers.Keys
    ensures r.next.None? <==> !hub.isRunning
  {
    if !hub.isRunning then CycleResult(hub, None, map[])
    else
      var sinceLast := now - hub.lastFetchTime;
      if sinceLast < hub.updateInterval then
        CycleResult(hub, Some(hub.updateInterval - sinceLast), map[])
      else
        match FetchData(hub, transport)
        case Fetched(data) =>
          CycleResult(hub.(lastFetchTime := doneAt, currentRetries := 0, cache := Some(data)),
                      Some(hub.updateInterval), Broadcast(hub.subscribers, data))
        case FetchFailed =>
          if hub.currentRetries < hub.maxRetries then
            CycleResult(hub.(currentRetries := hub.currentRetries + 1), Some(hub.retryTimeout), map[])
          else
            CycleResult(hub.(currentRetries := 0), Some(hub.updateInterval),
                        Broadcast(hub.subscribers, ErrorPayload))
  }

  /** True when a cycle at `now` passes the rate limit. */
  predicate Due(hub: Hub, now: int)
  {
    now - hub.lastFetchTime >= hub.updateInterval
  }

  /** A cycle while stopped does nothing and schedules nothing. */
  lemma CycleWhenStopped(hub: Hub, now: int, doneAt: int, transport: FetchOutcome)
    requires !hub.isRunning
    ensures PollCycle(hub, now, doneAt, transport) == CycleResult(hub, None, map[])
  {
  }

  /** Rate limit: too soon after the last fetch there is no fetch, no state
      change and no notification; the next cycle comes when the interval is up. */
  lemma CycleRateLimited(hub: Hub, now: int, doneAt: int, transport: FetchOutcome)
    requires hub.isRunning && !Due(hub, now)
    ensures var r := PollCycle(hub, now, doneAt, transport);
            && r.hub == hub && r.notified == map[]
            && r.next == Some(hub.updateInterval - (now - hub.lastFetchTime))
            && now + r.next.value == hub.lastFetchTime + hub.updateInterval
  {
  }

  /** A successful fetch resets the retry counter, records the completion time,
      fills the cache (so `GetLatestData` returns it), hands the payload to
      every subscriber, and schedules the next cycle a full interval later. */
  lemma CycleSuccess(hub: Hub, now: int, doneAt: int, data: Metrics)
    requires hub.isRunning && Due(hub, now) && hub.baseUrl != ""
    ensures var r := PollCycle(hub, now, doneAt, Fetched(data));
            && r.hub.lastFetchTime == doneAt && r.hub.currentRetries == 0
            && GetLatestData(r.hub) == Some(data)
            && r.notified.Keys == hub.subscribers.Keys
            && (forall id :: id in r.notified ==> r.notified[id] == data)
            && r.next == Some(hub.updateInterval)
  {
  }

  /** A failed fetch with retries left: count it, tell nobody, retry after
      the retry timeout. */
  lemma CycleFailureRetries(hub: Hub, now: int, doneAt: int, transport: FetchOutcome)
    requires hub.isRunning && Due(hub, now) && FetchData(hub, transport).FetchFailed?
    requires hub.currentRetries < hub.maxRetries
    ensures var r := PollCycle(hub, now, doneAt, transport);
            && r.hub == hub.(currentRetries := hub.currentRetries + 1)
            && r.notified == map[]
            && r.next == Some(hub.retryTimeout)
  {
  }

  /** A failed fetch with the retries used up: every subscriber gets the error
      payload, the counter resets, and polling resumes at the normal interval. */
  lemma CycleFailureExhausted(hub: Hub, now: int, doneAt: int, transport: FetchOutcome)
    requires hub.isRunning && Due(hub, now) && FetchData(hub, transport).FetchFailed?
    requires hub.currentRetries >= hub.maxRetries
    ensures var r := PollCycle(hub, now, doneAt, transport);
            && r.hub == hub.(currentRetries := 0)
            && r.notified.Keys == hub.subscribers.Keys
            && (forall id :: id in r.notified ==> r.notified[id] == ErrorPayload)
            && r.next == Some(hub.updateInterval)
  {
  }

  /** With no base URL every due cycle behaves as a failed fetch, whatever the
      network would have answered. */
  lemma EmptyBaseUrlFails(hub: Hub, now: int, doneAt: int, transport: FetchOutcome)
    requires hub.baseUrl == ""
    ensures PollCycle(hub, now, doneAt, transport) == PollCycle(hub, now, doneAt, FetchFailed)
    ensures forall id :: id in PollCycle(hub, now, doneAt, transport).notified ==>
              PollCycle(hub, now, doneAt, transport).notified[id] == ErrorPayload
  {
  }

  /** A cycle keeps the retry counter within `0..maxRetries`. */
  lemma CycleKeepsRetriesInRange(hub: Hub, now: int, doneAt: int, transport: FetchOutcome)
    requires RetriesInRange(hub)
    ensures RetriesInRange(PollCycle(hub, now, doneAt, transport).hub)
  {
  }

  /** Success and error payloads never reach a subscriber in the same cycle:
      a cycle either notifies nobody, or everybody with the fetched data, or
      everybody with the error payload. */
  lemma CycleNotifiesUniformly(hub: Hub, now: int, doneAt: int, transport: FetchOutcome)
    ensures var r := PollCycle(hub, now, doneAt, transport);
            forall a, b :: a in r.notified && b in r.notified ==> r.notified[a] == r.notified[b]
    ensures var r := PollCycle(hub, now, doneAt, transport);
            forall a :: a in r.notified ==>
              r.notified[a] == ErrorPayload || (transport.Fetched? && r.notified[a] == transport.payload)
  {
  }

  /** With three retries allowed, three failing cycles in a row notify nobody
      and count up the retries; the fourth gives every subscriber exactly one
      error payload and resets the counter. */
  lemma {:induction false} FourFailures(hub: Hub, t1: int, t2: int, t3: int, t4: int, doneAt: int)
    requires hub.isRunning && hub.maxRetries == 3 && hub.currentRetries == 0
    requires hub.lastFetchTime + hub.updateInterval <= t1 <= t2 <= t3 <= t4
    ensures var c1 := PollCycle(hub, t1, doneAt, FetchFailed);
            var c2 := PollCycle(c1.hub, t2, doneAt, FetchFailed);
            var c3 := PollCycle(c2.hub, t3, doneAt, FetchFailed);
            var c4 := PollCycle(c3.hub, t4, doneAt, FetchFailed);
            && c1.notified == map[] && c2.notified == map[] && c3.notified == map[]
            && c1.hub.currentRetries == 1 && c2.hub.currentRetries == 2 && c3.hub.currentRetries == 3
            && c1.next == c2.next == c3.next == Some(hub.retryTimeout)
            && c4.notified.Keys == hub.subscribers.Keys
            && (forall id :: id in c4.notified ==> c4.notified[id] == ErrorPayload)
            && c4.hub.currentRetries == 0
            && c4.next == Some(hub.updateInterval)
  {
    var c1 := PollCycle(hub, t1, doneAt, FetchFailed);
    CycleFailureRetries(hub, t1, doneAt, FetchFailed);
    var c2 := PollCycle(c1.hub, t2, doneAt, FetchFailed);
    CycleFailureRetries(c1.hub, t2, doneAt, FetchFailed);
    var c3 := PollCycle(c2.hub, t3, doneAt, FetchFailed);
    CycleFailureRetries(c2.hub, t3, doneAt, FetchFailed);
    CycleFailureExhausted(c3.hub, t4, doneAt, FetchFailed);
  }

  /** With a one-second interval, a second cycle 200 ms after a successful
      fetch completed makes no fetch and is deferred by 800 ms. */
  lemma DeferredSecondFetch(hub: Hub, now: int, doneAt: int, data: Metrics, transport: FetchOutcome)
    requires hub.isRunning && hub.updateInterval == 1000 && Due(hub, now) && hub.baseUrl != ""
    ensures var first := PollCycle(hub, now, doneAt, Fetched(data));
            var second := PollCycle(first.hub, doneAt + 200, doneAt + 200, transport);
            && second.next == Some(800)
            && second.notified == map[]
            && second.hub == first.hub
  {
    CycleSuccess(hub, now, doneAt, data);
  }

  // ---------------------------------------------------------------------
  // Reading the cache and configuring
  // ---------------------------------------------------------------------

  /** `getLatestData`: the cached payload, if any; it never fetches. */
  function GetLatestData(hub: Hub): Option<Metrics>
  {
    hub.cache
  }

  /** The getter returns what the last successful fetch brought: a cycle
      either leaves it alone or replaces it by the payload the transport
      delivered, and a failure (even one that broadcasts the error payload)
      never changes it. */
  lemma LatestDataIsLastSuccess(hub: Hub, now: int, doneAt: int, transport: FetchOutcome)
    ensures var after := GetLatestData(PollCycle(hub, now, doneAt, transport).hub);
            && (after != GetLatestData(hub) ==> transport.Fetched? && after == Some(transport.payload))
            && (FetchData(hub, transport).FetchFailed? ==> after == GetLatestData(hub))
  {
  }

  /** `setUpdateInterval`: only the interval changes. */
  function SetUpdateInterval(hub: Hub, interval: int): (r: Hub)
    ensures r.updateInterval == interval
    ensures r.(updateInterval := hub.updateInterval) == hub
  {
    hub.(updateInterval := interval)
  }

  /** `setBaseURL`: only the URL changes. */
  function SetBaseUrl(hub: Hub, url: string): (r: Hub)
    ensures r.baseUrl == url
    ensures r.(baseUrl := hub.baseUrl) == hub
  {
    hub.(baseUrl := url)
  }

  /** `setRetryConfig`: only the retry timeout and limit change. */
  function SetRetryConfig(hub: Hub, timeout: int, maxRetries: int): (r: Hub)
    ensures r.retryTimeout == timeout && r.maxRetries == maxRetries
    ensures r.(retryTimeout := hub.retryTimeout, maxRetries := hub.maxRetries) == hub
  {
    hub.(retryTimeout := timeout, maxRetries := maxRetries)
  }

  /** The setters touch only configuration, and the next cycle obeys it: a
      new interval sets the rate limit, a new retry configuration decides the
      retry delay and when retries run out. */
  lemma SettersTakeEffect(hub: Hub, now: int, doneAt: int, interval: int, timeout: int, maxRetries: int)
    requires hub.isRunning && hub.baseUrl != ""
    ensures var h := SetUpdateInterval(hub, interval);
            && h.subscribers == hub.subscribers && h.cache == hub.cache && h.isRunning
            && (now - hub.lastFetchTime < interval ==>
                  PollCycle(h, now, doneAt, FetchFailed).next == Some(interval - (now - hub.lastFetchTime)))
    ensures var h := SetRetryConfig(hub, timeout, maxRetries);
            && h.subscribers == hub.subscribers && h.cache == hub.cache && h.isRunning
            && (Due(hub, now) && hub.currentRetries < maxRetries ==>
                  PollCycle(h, now, doneAt, FetchFailed).next == Some(timeout))
            && (Due(hub, now) && hub.currentRetries >= maxRetries ==>
                  PollCycle(h, now, doneAt, FetchFailed).notified.Keys == hub.subscribers.Keys)
    ensures SetBaseUrl(hub, "").subscribers == hub.subscribers
    ensures forall transport :: Due(hub, now) ==>
              PollCycle(SetBaseUrl(hub, ""), now, doneAt, transport).hub.cache == hub.cache
  {
  }

  // ---------------------------------------------------------------------
  // Any interleaving of calls
  // ---------------------------------------------------------------------

  /** A call into the hub from the outside, or a timer firing a cycle. */
  datatype Event =
    | Sub(id: string, callback: Callback)
    | Unsub(id: string)
    | Cycle(now: int, doneAt: int, transport: FetchOutcome)
    | SetInterval(interval: int)
    | SetUrl(url: string)
    | SetRetry(timeout: int, maxRetries: int)

  function Apply(hub: Hub, e: Event): Hub
  {
    match e
    case Sub(id, cb) => Subscribe(hub, id, cb).hub
    case Unsub(id) => Unsubscribe(hub, id)
    case Cycle(now, doneAt, transport) => PollCycle(hub, now, doneAt, transport).hub
    case SetInterval(interval) => SetUpdateInterval(hub, interval)
    case SetUrl(url) => SetBaseUrl(hub, url)
    case SetRetry(timeout, maxRetries) => SetRetryConfig(hub, timeout, maxRetries)
  }

  function Run(hub: Hub, events: seq<Event>): Hub
    decreases |events|
  {
    if |events| == 0 then hub else Run(Apply(hub, events[0]), events[1..])
  }

  /** After any sequence of calls, polling is active exactly when the
      subscriber map is non-empty. */
  lemma {:induction false} RunKeepsRunningMatches(hub: Hub, events: seq<Event>)
    requires RunningMatchesSubscribers(hub)
    ensures RunningMatchesSubscribers(Run(hub, events))
    decreases |events|
  {
    if |events| > 0 {
      var e := events[0];
      match e {
        case Sub(id, cb) => SubscribeKeepsRunningMatches(hub, id, cb);
        case Unsub(id) => UnsubscribeKeepsRunningMatches(hub, id);
        case _ =>
      }
      RunKeepsRunningMatches(Apply(hub, e), events[1..]);
    }
  }

  /** The freshly constructed hub satisfies the invariant, so every reachable
      hub does. */
  lemma ReachableHubsRunExactlyWhenSubscribed(events: seq<Event>)
    ensures RunningMatchesSubscribers(Run(InitialHub, events))
  {
    RunKeepsRunningMatches(InitialHub, events);
  }
}
