/** The latency probe (ping/src/ping/ping.py): GET the target with a fixed set
    of headers, submit the latency to CloudWatch only when the status is
    exactly 200, and print a JSON log record of every response. */
module Ping {
  import opened Wrappers
  import opened Decimal
  import opened Json
  import opened Probe

  /** The four request headers, in the order the dict literal gives them. */
  const Headers: seq<Header> := [Header("User-Agent", "python-requests/2.31.0"),
                                 Header("Accept-Encoding", "gzip, deflate"),
                                 Header("Accept", "*/*"),
                                 Header("Connection", "close")]

  /** The log's latency text, `str(v) + "ms"`. */
  function LatencyText(m: Micros): (s: string)
    ensures |s| >= 3 && s[|s| - 2..] == "ms"
    ensures AllDigits(s[..|s| - 2])
  {
    NatToString(LatencyMs(m)) + "ms"
  }

  /** The log record: path, request body, status, reason, decoded body and
      latency, in that key order. */
  function LogRecord(r: Response, body: Json): (ms: seq<Member>)
    ensures |ms| == 6
    ensures ms[0] == Member("Path", JStr(r.requestUrl))
    ensures ms[1] == Member("Request", r.requestBody)
    ensures ms[2] == Member("Status", JInt(r.statusCode))
    ensures ms[3] == Member("Reason", JStr(r.reason))
    ensures ms[4] == Member("Response", body)
    ensures ms[5] == Member("Latency", JStr(LatencyText(r.elapsed)))
  {
    [Member("Path", JStr(r.requestUrl)),
     Member("Request", r.requestBody),
     Member("Status", JInt(r.statusCode)),
     Member("Reason", JStr(r.reason)),
     Member("Response", body),
     Member("Latency", JStr(NatToString(r.elapsed / 1000) + "ms"))]
  }

  /** `lambda_handler`, given the event and the response the GET returns.
      A missing `url` raises before the request; a missing `name` or
      `environment` raises only when a metric is built; a body that is not
      JSON raises after the metric, before the log. */
  function Handler(event: seq<Member>, r: Response): (o: Outcome)
    ensures Lookup(event, "url").None? <==> o.effects == []
    ensures Lookup(event, "url").Some? ==> o.effects[0] == Get(Lookup(event, "url").value, Headers)
    ensures o.completed ==> Lookup(event, "url").Some? && r.body.Some?
  {
    match Lookup(event, "url")
    case None => Outcome([], false)
    case Some(url) =>
      var sent := [Get(url, Headers)];
      if r.statusCode == 200 && !HasDimensions(event) then Outcome(sent, false)
      else
        var measured := sent + (if r.statusCode == 200
                                then [PutMetricData("Ping", [LatencyDatum(Lookup(event, "name").value,
                                                                          Lookup(event, "environment").value, r.elapsed)])]
                                else []);
        match r.body
        case None => Outcome(measured, false)
        case Some(b) => Outcome(measured + [Print(Dumps(JObj(LogRecord(r, b))))], true)
  }

  // ------------------------------------------------------------ properties

  /** A metric is submitted only for status 200. */
  lemma MetricOnlyOn200(event: seq<Member>, r: Response, i: nat)
    requires i < |Handler(event, r).effects| && Handler(event, r).effects[i].PutMetricData?
    ensures r.statusCode == 200
  {
  }

  /** With the metric's keys present, a metric is submitted exactly when the
      status is 200; every other status, other 2xx codes included, submits
      none. */
  lemma MetricIff200(event: seq<Member>, r: Response)
    requires Lookup(event, "url").Some? && HasDimensions(event)
    ensures (exists i :: 0 <= i < |Handler(event, r).effects| && Handler(event, r).effects[i].PutMetricData?)
            <==> r.statusCode == 200
  {
    var o := Handler(event, r);
    if r.statusCode == 200 {
      assert o.effects[1].PutMetricData?;
    }
  }

  /** Every submission is one datum in namespace Ping: Latency in
      Milliseconds, dimensioned by Target then Environment from the event,
      valued at the whole milliseconds of the elapsed time. */
  lemma MetricShape(event: seq<Member>, r: Response, i: nat)
    requires i < |Handler(event, r).effects| && Handler(event, r).effects[i].PutMetricData?
    ensures HasDimensions(event)
    ensures var e := Handler(event, r).effects[i];
            e.namespace == "Ping" && |e.metricData| == 1 &&
            e.metricData[0].metricName == "Latency" && e.metricData[0].unit == "Milliseconds" &&
            e.metricData[0].dimensions == [Dimension("Target", Lookup(event, "name").value),
                                           Dimension("Environment", Lookup(event, "environment").value)] &&
            e.metricData[0].value * 1000 <= r.elapsed < e.metricData[0].value * 1000 + 1000 &&
            0 <= e.metricData[0].value <= 999
  {
  }

  /** A body that is not JSON aborts the handler before anything is printed. */
  lemma NonJsonBodyNotLogged(event: seq<Member>, r: Response)
    requires r.body.None?
    ensures var o := Handler(event, r);
            !o.completed && forall i :: 0 <= i < |o.effects| ==> !o.effects[i].Print?
  {
  }

  /** Every response with a JSON body is logged, whatever its status, as the
      last effect; the printed text decodes back to the record, with keys in
      the order Path, Request, Status, Reason, Response, Latency. */
  lemma LogAlways(event: seq<Member>, r: Response)
    requires Lookup(event, "url").Some? && r.body.Some?
    requires r.statusCode == 200 ==> HasDimensions(event)
    ensures var o := Handler(event, r);
            o.completed && |o.effects| >= 2 && o.effects[|o.effects| - 1].Print? &&
            Parse(o.effects[|o.effects| - 1].text) == Some(JObj(LogRecord(r, r.body.value)))
    ensures var ms := LogRecord(r, r.body.value);
            [ms[0].key, ms[1].key, ms[2].key, ms[3].key, ms[4].key, ms[5].key] ==
            ["Path", "Request", "Status", "Reason", "Response", "Latency"]
  {
    ParseDumps(JObj(LogRecord(r, r.body.value)));
  }

  /** The log's latency is the metric's value written in decimal digits
      followed by "ms": the digits read back as that same value. */
  lemma LatencyTextValue(m: Micros)
    ensures var s := LatencyText(m);
            ParseDigits(s[..|s| - 2]) == LatencyMs(m) && s == NatToString(LatencyMs(m)) + "ms"
  {
    var s := LatencyText(m);
    assert s[..|s| - 2] == NatToString(LatencyMs(m));
    ParseNatToString(LatencyMs(m));
  }

  /** The latency texts of two responses agree exactly when their metric
      values do. */
  lemma LatencyTextInjective(m: Micros, n: Micros)
    ensures LatencyText(m) == LatencyText(n) <==> LatencyMs(m) == LatencyMs(n)
  {
    if LatencyText(m) == LatencyText(n) {
      LatencyTextValue(m);
      LatencyTextValue(n);
    }
  }
}
