/** The older latency probe (core/src/ping/ping.py): a plain GET of the
    target, then the latency submitted to CloudWatch whatever the response;
    no status check and no log. */
module CorePing {
  import opened Json
  import opened Probe
  import Ping

  /** `lambda_handler`, given the event and the response the GET returns. */
  function Handler(event: seq<Member>, r: Response): (o: Outcome)
    ensures Lookup(event, "url").None? <==> o.effects == []
    ensures Lookup(event, "url").Some? ==> o.effects[0] == Get(Lookup(event, "url").value, [])
  {
    match Lookup(event, "url")
    case None => Outcome([], false)
    case Some(url) =>
      var sent := [Get(url, [])];
      if !HasDimensions(event) then Outcome(sent, false)
      else Outcome(sent + [PutMetricData("Ping", [LatencyDatum(Lookup(event, "name").value,
                                                               Lookup(event, "environment").value, r.elapsed)])], true)
  }

  /** The status is never inspected: two responses with the same elapsed
      time produce the same effects. */
  lemma StatusIgnored(event: seq<Member>, r: Response, s: Response)
    requires r.elapsed == s.elapsed
    ensures Handler(event, r) == Handler(event, s)
  {
  }

  /** With all three keys present the handler completes after exactly two
      effects: the GET without custom headers, then one Ping/Latency datum
      in Milliseconds with Target then Environment dimensions and the whole
      milliseconds as value; nothing is printed. */
  lemma MetricAlways(event: seq<Member>, r: Response)
    requires Lookup(event, "url").Some? && HasDimensions(event)
    ensures var o := Handler(event, r);
            o.completed && |o.effects| == 2 &&
            o.effects[1].PutMetricData? && o.effects[1].namespace == "Ping" &&
            |o.effects[1].metricData| == 1 &&
            o.effects[1].metricData[0].metricName == "Latency" &&
            o.effects[1].metricData[0].unit == "Milliseconds" &&
            o.effects[1].metricData[0].dimensions == [Dimension("Target", Lookup(event, "name").value),
                                                      Dimension("Environment", Lookup(event, "environment").value)] &&
            o.effects[1].metricData[0].value * 1000 <= r.elapsed < o.effects[1].metricData[0].value * 1000 + 1000
  {
  }

  /** On a 200 response the older handler submits the same metric as the
      current one; the two differ in the headers of the GET, in the log, and
      in submitting on other statuses. */
  lemma AgreesWithPingOn200(event: seq<Member>, r: Response)
    requires Lookup(event, "url").Some? && HasDimensions(event) && r.statusCode == 200
    ensures Handler(event, r).effects[1] == Ping.Handler(event, r).effects[1]
    ensures Handler(event, r).effects[0].headers == [] != Ping.Handler(event, r).effects[0].headers
  {
  }
}
