/** What the latency probe's Lambda handlers see and do. The invocation event
    is a JSON object; the HTTP response is an input (the network call itself
    is not modelled); the calls the handler makes to the outside world (the
    GET, CloudWatch `put_metric_data`, `print`) are the effects it returns,
    in the order it makes them. An uncaught exception ends the handler: the
    effects made so far stand and the run is marked incomplete. */
module Probe {
  import opened Wrappers
  import opened Json

  /** `timedelta.microseconds`: the sub-second part of the elapsed time. */
  type Micros = m: int | 0 <= m < 1000000

  /** The parts of a `requests.Response` the handlers read. `body` is what
      `response.json()` returns, `None` when the body is not JSON (the call
      raises). `requestBody` is `null` for a GET without data. */
  datatype Response = Response(statusCode: int, elapsed: Micros, reason: string,
                               requestUrl: string, requestBody: Json, body: Option<Json>)

  datatype Header = Header(name: string, value: string)
  datatype Dimension = Dimension(name: string, value: Json)
  datatype Datum = Datum(metricName: string, dimensions: seq<Dimension>, unit: string, value: int)

  datatype Effect =
    | Get(url: Json, headers: seq<Header>)
    | PutMetricData(namespace: string, metricData: seq<Datum>)
    | Print(text: string)

  /** The effects of one invocation, and whether it returned normally. */
  datatype Outcome = Outcome(effects: seq<Effect>, completed: bool)

  /** `elapsed.microseconds // 1000`: whole milliseconds, rounded down. */
  function LatencyMs(m: Micros): (v: int)
    ensures 0 <= v <= 999
    ensures v * 1000 <= m < v * 1000 + 1000
  {
    m / 1000
  }

  /** The one latency datum both handlers submit. */
  function LatencyDatum(target: Json, environment: Json, m: Micros): (d: Datum)
    ensures d.metricName == "Latency" && d.unit == "Milliseconds" && d.value == LatencyMs(m)
    ensures d.dimensions == [Dimension("Target", target), Dimension("Environment", environment)]
  {
    Datum("Latency", [Dimension("Target", target), Dimension("Environment", environment)], "Milliseconds", LatencyMs(m))
  }

  /** Whether the event holds the keys the metric needs. */
  predicate HasDimensions(event: seq<Member>) {
    Lookup(event, "name").Some? && Lookup(event, "environment").Some?
  }

  /** `n // 1000` is a floor, never a rounding: the value is the unique
      whole number of milliseconds not above the elapsed time. */
  lemma LatencyFloorUnique(m: Micros, v: int)
    requires v * 1000 <= m < v * 1000 + 1000
    ensures v == LatencyMs(m)
  {
  }
}
