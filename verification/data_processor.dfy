/** How the network widget turns a delivered payload into a sample: validate
    it and clamp its counters, or, when it is unusable, make up a plausible
    sample from the previous one. `Math.random()` and `Date.now()` are
    parameters. */
module DataProcessor {
  import opened Wrappers
  import opened Payload

  /** A network sample as `processData` receives it: the payload's timestamp
      (seconds) and the cumulative byte counters. */
  datatype Sample = Sample(timestamp: real, bytesSent: real, bytesRecv: real)

  /** `ensurePositiveNumber`: `Math.max(0, Number(v) || 0)`. */
  function EnsurePositiveNumber(v: Value): (r: real)
    ensures r >= 0.0
    ensures NumberOf(v).None? ==> r == 0.0
    ensures NumberOf(v).Some? && NumberOf(v).value >= 0.0 ==> r == NumberOf(v).value
    ensures NumberOf(v).Some? && NumberOf(v).value < 0.0 ==> r == 0.0
  {
    var n := match NumberOf(v) case Some(x) => x case None => 0.0;
    if n > 0.0 then n else 0.0
  }

  /** Where `handleData` sends a payload: on to `processData` with a cleaned
      sample, or to `simulateData`. */
  datatype Route = Process(sample: Sample) | Simulate

  /** The fields `handleData` insists on: a truthy timestamp, a `network`
      object and both counters defined. */
  predicate HasRequiredFields(m: Metrics)
  {
    && m.timestamp.Some? && m.timestamp.value != 0.0
    && m.network.Some?
    && m.network.value.bytesSent.Some?
    && m.network.value.bytesRecv.Some?
  }

  /** `handleData`'s decision. A missing payload or one with a truthy `error`
      is simulated straight away; one that lacks a required field throws
      inside the `try` and is simulated from the `catch`. */
  function HandleData(data: Option<Metrics>): (r: Route)
    ensures data.None? ==> r == Simulate
    ensures data.Some? && HasError(data.value) ==> r == Simulate
    ensures data.Some? && !HasRequiredFields(data.value) ==> r == Simulate
    ensures r.Process? <==> data.Some? && !HasError(data.value) && HasRequiredFields(data.value)
    ensures r.Process? ==>
              && r.sample.timestamp == data.value.timestamp.value
              && r.sample.bytesSent == EnsurePositiveNumber(data.value.network.value.bytesSent.value)
              && r.sample.bytesRecv == EnsurePositiveNumber(data.value.network.value.bytesRecv.value)
              && r.sample.bytesSent >= 0.0 && r.sample.bytesRecv >= 0.0
  {
    match data
    case None => Simulate
    case Some(m) =>
      if HasError(m) then Simulate
      else if !HasRequiredFields(m) then Simulate
      else
        Process(Sample(m.timestamp.value,
                       EnsurePositiveNumber(m.network.value.bytesSent.value),
                       EnsurePositiveNumber(m.network.value.bytesRecv.value)))
  }

  /** The hub's error payload is always simulated, never processed. */
  lemma ErrorPayloadIsSimulated()
    ensures HandleData(Some(ErrorPayload)) == Simulate
  {
    ErrorPayloadIsRecognised();
  }

  const MIN_INCREMENT: int := 100 * 1024
  const INCREMENT_SPAN: int := 2 * 1024 * 1024 - 100 * 1024

  /** `generateRandomIncrement`, given the value `Math.random()` returned:
      `Math.floor(random * (2 MiB - 100 KiB) + 100 KiB)`. */
  function RandomIncrement(random: real): (r: int)
    requires 0.0 <= random < 1.0
    ensures MIN_INCREMENT <= r < MIN_INCREMENT + INCREMENT_SPAN
    ensures 102400 <= r <= 2097151
  {
    (random * (INCREMENT_SPAN as real) + (MIN_INCREMENT as real)).Floor
  }

  /** Every whole number of bytes in that range is a possible increment. */
  lemma EveryIncrementReachable(k: int)
    requires 102400 <= k <= 2097151
    ensures var random := ((k - MIN_INCREMENT) as real) / (INCREMENT_SPAN as real);
            0.0 <= random < 1.0 && RandomIncrement(random) == k
  {
    var random := ((k - MIN_INCREMENT) as real) / (INCREMENT_SPAN as real);
    assert random * (INCREMENT_SPAN as real) == (k - MIN_INCREMENT) as real;
  }

  /** `simulateData`'s sample: the time in whole seconds, and each counter
      the previous one plus its own random increment. The source's `|| 0`
      fallback only matters for a missing or NaN counter, which a `Sample`
      cannot hold. `nowMs` is `Date.now()`; with a positive divisor Dafny's `/` is the
      source's `Math.floor(nowMs / 1000)`. */
  function SimulatedSample(last: Sample, nowMs: int, randomSent: real, randomRecv: real): (r: Sample)
    requires 0.0 <= randomSent < 1.0 && 0.0 <= randomRecv < 1.0
    ensures r.bytesSent - last.bytesSent >= 102400.0 && r.bytesSent - last.bytesSent <= 2097151.0
    ensures r.bytesRecv - last.bytesRecv >= 102400.0 && r.bytesRecv - last.bytesRecv <= 2097151.0
    ensures r.bytesSent > last.bytesSent && r.bytesRecv > last.bytesRecv
    ensures r.timestamp * 1000.0 <= nowMs as real < r.timestamp * 1000.0 + 1000.0
  {
    Sample((nowMs / 1000) as real,
           last.bytesSent + RandomIncrement(randomSent) as real,
           last.bytesRecv + RandomIncrement(randomRecv) as real)
  }
}
