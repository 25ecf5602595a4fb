/** The probe's dashboard (infrastructure/src/monitoring/ping_metrics.py):
    one latency widget per region, each plotting one metric per target,
    serialised as a JSON dashboard body. */
module PingMetrics {
  import opened Wrappers
  import opened Json
  import Probe
  import PingInfra

  // ----------------------------------------------------------- dictionaries

  /** The keys of an object, in insertion order. */
  function Keys(ms: seq<Member>): (ks: seq<string>)
    ensures |ks| == |ms|
    ensures forall i :: 0 <= i < |ms| ==> ks[i] == ms[i].key
  {
    seq(|ms|, i requires 0 <= i < |ms| => ms[i].key)
  }

  /** A Python dict: no key occurs twice. */
  predicate DistinctKeys(ms: seq<Member>) {
    forall i, j :: 0 <= i < j < |ms| ==> ms[i].key != ms[j].key
  }

  /** Where `key` sits in the object, if anywhere. */
  function KeyIndex(ms: seq<Member>, key: string): (r: Option<nat>)
    ensures r.Some? ==> r.value < |ms| && ms[r.value].key == key
    ensures r.None? ==> forall i :: 0 <= i < |ms| ==> ms[i].key != key
  {
    if |ms| == 0 then None
    else if ms[|ms| - 1].key == key then Some(|ms| - 1)
    else KeyIndex(ms[..|ms| - 1], key)
  }

  /** `d[key] = value` on a dict: an existing key keeps its place and takes
      the new value; a new key goes last. */
  function SetKey(ms: seq<Member>, key: string, value: Json): seq<Member> {
    match KeyIndex(ms, key)
    case Some(i) => ms[i := Member(key, value)]
    case None => ms + [Member(key, value)]
  }

  /** In a dict, the value looked up under a key is the one stored with it. */
  lemma {:induction false} LookupAt(ms: seq<Member>, i: nat)
    requires DistinctKeys(ms) && i < |ms|
    ensures Lookup(ms, ms[i].key) == Some(ms[i].value)
    decreases |ms|
  {
    if i < |ms| - 1 {
      LookupAt(ms[..|ms| - 1], i);
    }
  }

  /** Setting a key keeps the keys distinct, stores the value under that
      key, leaves every other key's value alone, and keeps the key order,
      adding the key at the end when it is new. */
  lemma SetKeyProperties(ms: seq<Member>, key: string, value: Json)
    requires DistinctKeys(ms)
    ensures var r := SetKey(ms, key, value);
            DistinctKeys(r) &&
            Lookup(r, key) == Some(value) &&
            (forall k :: k != key ==> Lookup(r, k) == Lookup(ms, k)) &&
            Keys(r) == (if key in Keys(ms) then Keys(ms) else Keys(ms) + [key])
  {
    match KeyIndex(ms, key)
    case Some(i) =>
      SetExistingKey(ms, i, value);
    case None =>
      SetNewKey(ms, key, value);
  }

  lemma SetExistingKey(ms: seq<Member>, i: nat, value: Json)
    requires DistinctKeys(ms) && i < |ms|
    ensures var r := ms[i := Member(ms[i].key, value)];
            DistinctKeys(r) &&
            Lookup(r, ms[i].key) == Some(value) &&
            (forall k :: k != ms[i].key ==> Lookup(r, k) == Lookup(ms, k)) &&
            Keys(r) == Keys(ms)
  {
    var key := ms[i].key;
    var r := ms[i := Member(key, value)];
    assert forall j :: 0 <= j < |r| ==> r[j].key == ms[j].key;
    LookupAt(r, i);
    assert Keys(r) == Keys(ms);
    forall k | k != key
      ensures Lookup(r, k) == Lookup(ms, k)
    {
      LookupOther(ms, i, value, k);
    }
  }

  /** Replacing the value of one entry does not change the lookup of any
      other key. */
  lemma {:induction false} LookupOther(ms: seq<Member>, i: nat, value: Json, k: string)
    requires i < |ms| && k != ms[i].key
    ensures Lookup(ms[i := Member(ms[i].key, value)], k) == Lookup(ms, k)
    decreases |ms|
  {
    var r := ms[i := Member(ms[i].key, value)];
    var n := |ms| - 1;
    if i == n {
      assert r[..n] == ms[..n];
    } else {
      assert r[..n] == ms[..n][i := Member(ms[i].key, value)];
      LookupOther(ms[..n], i, value, k);
    }
  }

  lemma SetNewKey(ms: seq<Member>, key: string, value: Json)
    requires DistinctKeys(ms)
    requires forall j :: 0 <= j < |ms| ==> ms[j].key != key
    ensures var r := ms + [Member(key, value)];
            DistinctKeys(r) &&
            Lookup(r, key) == Some(value) &&
            (forall k :: k != key ==> Lookup(r, k) == Lookup(ms, k)) &&
            Keys(r) == Keys(ms) + [key] && key !in Keys(ms)
  {
    var r := ms + [Member(key, value)];
    assert r[..|ms|] == ms;
    assert Keys(r) == Keys(ms) + [key];
  }

  /** `DashboardBody`: a dict filled with `put` and serialised with
      `getContent`. */
  class DashboardBody {
    var content: seq<Member>

    predicate Valid()
      reads this
    {
      DistinctKeys(content)
    }

    constructor ()
      ensures Valid() && content == []
    {
      content := [];
    }

    /** `put(k, v)`: `content[k] = v`. */
    method Put(k: string, v: Json)
      requires Valid()
      modifies this
      ensures Valid() && content == SetKey(old(content), k, v)
    {
      SetKeyProperties(content, k, v);
      content := SetKey(content, k, v);
    }

    /** `getContent`: the dict as JSON text, which decodes back to it. */
    function GetContent(): (s: string)
      reads this
      ensures Parse(s) == Some(JObj(content))
    {
      ParseDumps(JObj(content));
      Dumps(JObj(content))
    }
  }

  // ---------------------------------------------------------------- widgets

  /** One metric of a widget: namespace, metric name, then the dimension
      pairs Environment and Target. */
  function Metric(environment: string, t: PingInfra.PingTarget): Json {
    JArr([JStr("Ping"), JStr("Latency"), JStr("Environment"), JStr(environment), JStr("Target"), JStr(t.name)])
  }

  /** The metrics of a widget, one per target in target order. */
  function Metrics(environment: string, targets: seq<PingInfra.PingTarget>): (ms: seq<Json>)
    ensures |ms| == |targets|
    ensures forall j :: 0 <= j < |targets| ==> ms[j] == Metric(environment, targets[j])
  {
    seq(|targets|, j requires 0 <= j < |targets| => Metric(environment, targets[j]))
  }

  /** A widget's properties. */
  function Properties(environment: string, region: string, targets: seq<PingInfra.PingTarget>): seq<Member> {
    [Member("metrics", JArr(Metrics(environment, targets))),
     Member("view", JStr("timeSeries")),
     Member("stacked", JBool(false)),
     Member("period", JInt(300)),
     Member("stat", JStr("Average")),
     Member("region", JStr(region)),
     Member("title", JStr("Exchange Latency" + " - " + region))]
  }

  /** The widget of one region. */
  function Widget(environment: string, region: string, targets: seq<PingInfra.PingTarget>): Json {
    JObj([Member("type", JStr("metric")), Member("properties", JObj(Properties(environment, region, targets)))])
  }

  /** The widgets, one per region in region order. */
  function Widgets(environment: string, regions: seq<string>, targets: seq<PingInfra.PingTarget>): (ws: seq<Json>)
    ensures |ws| == |regions|
    ensures forall i :: 0 <= i < |regions| ==> ws[i] == Widget(environment, regions[i], targets)
  {
    seq(|regions|, i requires 0 <= i < |regions| => Widget(environment, regions[i], targets))
  }

  /** The nested loops of `PingMetrics.__init__`: for each region, the
      metrics of every target, then the widget around them. */
  method RegionWidgets(environment: string, regions: seq<string>, targets: seq<PingInfra.PingTarget>)
      returns (regionWidgets: seq<Json>)
    ensures regionWidgets == Widgets(environment, regions, targets)
  {
    regionWidgets := [];
    for i := 0 to |regions|
      invariant regionWidgets == Widgets(environment, regions[..i], targets)
    {
      var region := regions[i];
      var metrics := [];
      for j := 0 to |targets|
        invariant metrics == Metrics(environment, targets[..j])
      {
        var targetName := targets[j].name;
        var metric := JArr([JStr("Ping"), JStr("Latency"), JStr("Environment"), JStr(environment), JStr("Target"), JStr(targetName)]);
        metrics := metrics + [metric];
      }
      assert targets[..|targets|] == targets;
      var props := [Member("metrics", JArr(metrics)),
                    Member("view", JStr("timeSeries")),
                    Member("stacked", JBool(false)),
                    Member("period", JInt(300)),
                    Member("stat", JStr("Average")),
                    Member("region", JStr(region)),
                    Member("title", JStr("Exchange Latency" + " - " + region))];
      var widget := JObj([Member("type", JStr("metric")), Member("properties", JObj(props))]);
      regionWidgets := regionWidgets + [widget];
    }
    assert regions[..|regions|] == regions;
  }

  /** The dashboard `PingMetrics` creates. */
  datatype Dashboard = Dashboard(id: string, body: string, dashboardName: string)

  /** `PingMetrics.__init__`: the widgets put under "widgets" in a fresh
      body, and the dashboard named after the environment. */
  method MakeDashboard(name: string, suffix: string, environment: string, regions: seq<string>,
                       targets: seq<PingInfra.PingTarget>) returns (d: Dashboard)
    ensures d.id == name + suffix + "-region-dashboard"
    ensures d.dashboardName == "PingLatencyByRegion-" + environment
    ensures d.body == Dumps(JObj([Member("widgets", JArr(Widgets(environment, regions, targets)))]))
  {
    var regionBody := new DashboardBody();
    var regionWidgets := RegionWidgets(environment, regions, targets);
    regionBody.Put("widgets", JArr(regionWidgets));
    assert regionBody.content == [Member("widgets", JArr(regionWidgets))];
    d := Dashboard(name + suffix + "-region-dashboard", regionBody.GetContent(), "PingLatencyByRegion-" + environment);
  }

  // ------------------------------------------------------------ properties

  /** The dashboard body decodes to an object whose single key is
      "widgets", holding one widget per region, in region order. */
  lemma BodyDecodes(environment: string, regions: seq<string>, targets: seq<PingInfra.PingTarget>)
    ensures var ws := Widgets(environment, regions, targets);
            Parse(Dumps(JObj([Member("widgets", JArr(ws))]))) == Some(JObj([Member("widgets", JArr(ws))])) &&
            |ws| == |regions|
  {
    ParseDumps(JObj([Member("widgets", JArr(Widgets(environment, regions, targets)))]));
  }

  /** Each widget is a metric widget for its region: a time series, not
      stacked, averaged over 300 seconds, titled after the region, with one
      metric per target in target order. */
  lemma WidgetShape(environment: string, regions: seq<string>, targets: seq<PingInfra.PingTarget>, i: nat)
    requires i < |regions|
    ensures var w := Widgets(environment, regions, targets)[i];
            w.JObj? && Lookup(w.members, "type") == Some(JStr("metric")) &&
            Lookup(w.members, "properties").Some? &&
            var p := Lookup(w.members, "properties").value;
            p.JObj? &&
            Keys(p.members) == ["metrics", "view", "stacked", "period", "stat", "region", "title"] &&
            Lookup(p.members, "view") == Some(JStr("timeSeries")) &&
            Lookup(p.members, "stacked") == Some(JBool(false)) &&
            Lookup(p.members, "period") == Some(JInt(300)) &&
            Lookup(p.members, "stat") == Some(JStr("Average")) &&
            Lookup(p.members, "region") == Some(JStr(regions[i])) &&
            Lookup(p.members, "title") == Some(JStr("Exchange Latency - " + regions[i])) &&
            Lookup(p.members, "metrics") == Some(JArr(Metrics(environment, targets)))
  {
    var ms := Widgets(environment, regions, targets)[i].members;
    var p := Properties(environment, regions[i], targets);
    assert ms == [Member("type", JStr("metric")), Member("properties", JObj(p))];
    assert Keys(ms) == ["type", "properties"];
    assert DistinctKeys(ms);
    LookupAt(ms, 0);
    LookupAt(ms, 1);
    PropertiesShape(environment, regions[i], targets);
  }

  /** The properties of a region's widget, key by key. */
  lemma PropertiesShape(environment: string, region: string, targets: seq<PingInfra.PingTarget>)
    ensures var p := Properties(environment, region, targets);
            Keys(p) == ["metrics", "view", "stacked", "period", "stat", "region", "title"] &&
            Lookup(p, "view") == Some(JStr("timeSeries")) &&
            Lookup(p, "stacked") == Some(JBool(false)) &&
            Lookup(p, "period") == Some(JInt(300)) &&
            Lookup(p, "stat") == Some(JStr("Average")) &&
            Lookup(p, "region") == Some(JStr(region)) &&
            Lookup(p, "title") == Some(JStr("Exchange Latency - " + region)) &&
            Lookup(p, "metrics") == Some(JArr(Metrics(environment, targets)))
  {
    var p := Properties(environment, region, targets);
    assert Keys(p) == ["metrics", "view", "stacked", "period", "stat", "region", "title"];
    assert DistinctKeys(p);
    LookupAt(p, 0);
    LookupAt(p, 1);
    LookupAt(p, 2);
    LookupAt(p, 3);
    LookupAt(p, 4);
    LookupAt(p, 5);
    LookupAt(p, 6);
    assert "Exchange Latency" + " - " + region == "Exchange Latency - " + region;
  }

  /** What the dashboard plots is what the probe submits: for a target of
      the dashboard's environment, the widget's metric names the probe's
      namespace, metric name and both dimensions of the datum a 200
      response produces. */
  lemma PlotsProbeMetric(environment: string, t: PingInfra.PingTarget, r: Probe.Response)
    requires t.environment == environment
    ensures Parse(PingInfra.GetInput(t)) == Some(JObj(PingInfra.Dict(t)))
    ensures var event := PingInfra.Dict(t);
            var d := Probe.LatencyDatum(Lookup(event, "name").value, Lookup(event, "environment").value, r.elapsed);
            Metric(environment, t) ==
              JArr([JStr("Ping"), JStr(d.metricName),
                    JStr(d.dimensions[1].name), d.dimensions[1].value,
                    JStr(d.dimensions[0].name), d.dimensions[0].value])
  {
    PingInfra.GetInputDecodes(t);
  }
}
