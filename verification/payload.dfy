/** The metrics payload that the polling hub fetches and fans out, as the
    widgets see it after JSON decoding. Fields the widgets read are `Option`s:
    `None` stands for a field that is absent (`undefined`). */
module Payload {
  import opened Wrappers

  /** A decoded JSON value. */
  datatype Value =
    | Null
    | Bool(b: bool)
    | Num(x: real)
    | Text(s: string)
    | Arr(items: seq<Value>)
    | Obj(fields: map<string, Value>)

  /** JavaScript truthiness of a decoded value: `null`, `false`, `0` and the
      empty string are falsy; every array and object is truthy. */
  predicate Truthy(v: Value)
  {
    match v
    case Null => false
    case Bool(b) => b
    case Num(x) => x != 0.0
    case Text(s) => s != ""
    case Arr(_) => true
    case Obj(_) => true
  }

  /** `Number(v)`; `None` is NaN. Strings and arrays are taken as NaN here
      (see the README for what this leaves out). */
  function NumberOf(v: Value): (r: Option<real>)
    ensures v.Num? ==> r == Some(v.x)
    ensures v.Null? ==> r == Some(0.0)
    ensures v.Obj? ==> r == None
  {
    match v
    case Null => Some(0.0)
    case Bool(b) => Some(if b then 1.0 else 0.0)
    case Num(x) => Some(x)
    case Text(_) => None
    case Arr(_) => None
    case Obj(_) => None
  }

  /** The `network` object of a payload. */
  datatype NetworkFields = NetworkFields(bytesSent: Option<Value>, bytesRecv: Option<Value>)

  /** The `cpu` object of a payload; every field is copied as it is. */
  datatype CpuFields = CpuFields(
    percent: Option<Value>,
    perCpuPercent: Option<Value>,
    frequencies: Option<Value>,
    loadAvg: Option<Value>,
    stats: Option<Value>,
    count: Option<Value>,
    times: Option<Value>)

  /** One payload delivered to a subscriber. `network` and `cpu` are `None`
      when absent or `null`; `timestamp` is a JSON number when present. */
  datatype Metrics = Metrics(
    error: Option<Value>,
    timestamp: Option<real>,
    network: Option<NetworkFields>,
    cpu: Option<CpuFields>)

  /** True when the payload carries a truthy `error` field. */
  predicate HasError(m: Metrics)
  {
    m.error.Some? && Truthy(m.error.value)
  }

  const RETRIES_EXHAUSTED_MESSAGE: string := "Failed to fetch data after maximum retries"

  /** The `{ error: ... }` payload the hub sends after its retries run out. */
  const ErrorPayload: Metrics := Metrics(Some(Text(RETRIES_EXHAUSTED_MESSAGE)), None, None, None)

  lemma ErrorPayloadIsRecognised()
    ensures HasError(ErrorPayload)
    ensures ErrorPayload.cpu.None? && ErrorPayload.network.None?
  {
  }
}
