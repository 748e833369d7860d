/** The testing provider: a map from metric keys to values, written over HTTP and read through the metrics API. */
module TestingProvider {
  import opened Results
  import opened Schema
  import opened MetricInfo
  import opened Helpers
  import opened MetricStore

  datatype ExternalMetricInfo = ExternalMetricInfo(metric: string)

  datatype ExternalValue = ExternalValue(metricName: string, labels: Labels, value: Quantity)

  datatype ExternalMetric = ExternalMetric(info: ExternalMetricInfo, labels: Labels, value: ExternalValue)

  /** Whether an external metric answers a query: same metric name, labels accepted by the selector. */
  predicate Answers(m: ExternalMetric, selector: Selector, info: ExternalMetricInfo) {
    m.info.metric == info.metric && selector.matches(m.labels)
  }

  /** The external metrics that answer a query, in stored order. */
  function Matching(metrics: seq<ExternalMetric>, selector: Selector, info: ExternalMetricInfo): seq<ExternalMetric> {
    if metrics == [] then []
    else
      var m := metrics[|metrics| - 1];
      Matching(metrics[..|metrics| - 1], selector, info) + if Answers(m, selector, info) then [m] else []
  }

  function ValuesOf(metrics: seq<ExternalMetric>): (values: seq<ExternalValue>)
    ensures |values| == |metrics| && forall i :: 0 <= i < |metrics| ==> values[i] == metrics[i].value
  {
    seq(|metrics|, i requires 0 <= i < |metrics| => metrics[i].value)
  }

  function Conjunction(s: Selector, t: Selector): Selector {
    Selector(s.text + "," + t.text, labels => s.matches(labels) && t.matches(labels), Ok(s.text + "," + t.text))
  }

  /** Querying by a conjunction is querying the answers to one half by the other half. */
  lemma {:induction false} ConjunctionFiltersTwice(metrics: seq<ExternalMetric>, s: Selector, t: Selector,
                                                   info: ExternalMetricInfo)
    ensures Matching(metrics, Conjunction(s, t), info) == Matching(Matching(metrics, s, info), t, info)
  {
    if metrics != [] {
      var front, m := metrics[..|metrics| - 1], metrics[|metrics| - 1];
      ConjunctionFiltersTwice(front, s, t, info);
      var once := Matching(front, s, info);
      assert (once + [m])[..|once|] == once;
      assert once + [] == once;
    }
  }

  /** Querying by a selector is querying everything and keeping what the selector accepts. */
  lemma {:induction false} SelectorFiltersEverything(metrics: seq<ExternalMetric>, s: Selector, info: ExternalMetricInfo)
    ensures Matching(metrics, s, info) == Matching(Matching(metrics, Everything(), info), s, info)
  {
    if metrics != [] {
      var front, m := metrics[..|metrics| - 1], metrics[|metrics| - 1];
      SelectorFiltersEverything(front, s, info);
      var all := Matching(front, Everything(), info);
      assert (all + [m])[..|all|] == all;
      assert all + [] == all;
    }
  }

  /** A query answers with exactly the stored metrics of its name whose labels match, each as often as it is stored and
      in stored order; `at` are their positions. */
  lemma {:induction false} MatchingMeaning(metrics: seq<ExternalMetric>, selector: Selector, info: ExternalMetricInfo)
    returns (at: seq<nat>)
    ensures forall k, l :: 0 <= k < l < |at| ==> at[k] < at[l]
    ensures forall i: nat :: i in at <==>
              i < |metrics| && metrics[i].info.metric == info.metric && selector.matches(metrics[i].labels)
    ensures |Matching(metrics, selector, info)| == |at|
    ensures forall k :: 0 <= k < |at| ==> at[k] < |metrics| && Matching(metrics, selector, info)[k] == metrics[at[k]]
  {
    at := [];
    if metrics != [] {
      var n := |metrics| - 1;
      at := MatchingMeaning(metrics[..n], selector, info);
      assert forall i: nat :: i in at ==> i < n;
      if metrics[n].info.metric == info.metric && selector.matches(metrics[n].labels) {
        at := at + [n];
      }
    }
  }

  /** Without a selector only the name decides. */
  lemma EverythingMatchesByName(metrics: seq<ExternalMetric>, info: ExternalMetricInfo) returns (at: seq<nat>)
    ensures forall k, l :: 0 <= k < l < |at| ==> at[k] < at[l]
    ensures forall i: nat :: i in at <==> i < |metrics| && metrics[i].info.metric == info.metric
    ensures |Matching(metrics, Everything(), info)| == |at|
    ensures forall k :: 0 <= k < |at| ==> at[k] < |metrics| && Matching(metrics, Everything(), info)[k] == metrics[at[k]]
  {
    at := MatchingMeaning(metrics, Everything(), info);
  }

  class Provider {
    const client: Client
    /** The mapper as it answers now; refreshing it is not the provider's doing. */
    var mapper: RESTMapper
    var values: Values
    var externalMetrics: seq<ExternalMetric>

    constructor (client: Client, mapper: RESTMapper, externalMetrics: seq<ExternalMetric>)
      ensures this.client == client && this.mapper == mapper
      ensures values == Replay([]) && this.externalMetrics == externalMetrics
    {
      this.client := client;
      this.mapper := mapper;
      values := map[];
      this.externalMetrics := externalMetrics;
    }

    /** Stores a value. If the map holds the outcome of a history, it then holds that of the history and this write. */
    method UpdateMetric(request: WriteRequest, ghost history: seq<WriteEvent>) returns (status: Outcome<()>)
      requires values == Replay(history)
      modifies this`values
      ensures status == if request.body.Err? then Err(request.body.error) else Ok(())
      ensures status.Err? ==> values == old(values)
      ensures values == Replay(history + [WriteEvent(mapper, request)])
    {
      var namespaced := false;
      if |request.namespace| > 0 || request.resourceType == "namespaces" {
        namespaced := true;
      }
      if request.body.Err? {
        ReplayGrows(history, WriteEvent(mapper, request));
        return Err(request.body.error);
      }
      var groupResource := ParseGroupResource(request.resourceType);
      var info := CustomMetricInfo(groupResource, namespaced, request.metric);
      // An error here is logged and otherwise ignored.
      info := Normalized(info, mapper).info;
      var key := MetricKey(info, NamespacedName(request.namespace, request.name));
      values := values[key := request.body.value];
      ReplayGrows(history, WriteEvent(mapper, request));
      return Ok(());
    }

    method MetricsFor(namespace: string, selector: Selector, info: CustomMetricInfo)
      returns (r: Outcome<seq<MetricValue>>)
      ensures r == MetricsBySelector(mapper, client, values, namespace, selector, info)
    {
      var names :- ListObjectNames(mapper, client, namespace, selector.text, info);
      var res: seq<MetricValue> := [];
      assert names[0..] == names;
      PrependTwice(res, [], MetricsOfNames(mapper, values, namespace, selector, info, names));
      for i := 0 to |names|
        invariant MetricsOfNames(mapper, values, namespace, selector, info, names)
               == Prepend(res, MetricsOfNames(mapper, values, namespace, selector, info, names[i..]))
      {
        assert names[i..][1..] == names[i + 1..];
        var name := NamespacedName(namespace, names[i]);
        var value := ValueFor(mapper, values, info, name);
        if value.Err? {
          if value.error.IsNotFound() {
            continue;
          }
          return Err(value.error);
        }
        var metric :- MetricFor(mapper, value.value, name, selector, info);
        PrependTwice(res, [metric], MetricsOfNames(mapper, values, namespace, selector, info, names[i + 1..]));
        res := res + [metric];
      }
      assert names[|names|..] == [] && res + [] == res;
      return Ok(res);
    }

    method GetMetricByName(name: NamespacedName, info: CustomMetricInfo) returns (r: Outcome<MetricValue>)
      ensures r == MetricByName(mapper, values, name, info)
    {
      var value :- ValueFor(mapper, values, info, name);
      r := MetricFor(mapper, value, name, Everything(), info);
    }

    method GetMetricBySelector(namespace: string, selector: Selector, info: CustomMetricInfo)
      returns (r: Outcome<seq<MetricValue>>)
      ensures r == MetricsBySelector(mapper, client, values, namespace, selector, info)
    {
      r := MetricsFor(namespace, selector, info);
    }

    /** Every stored info once, in an order the map's iteration decides. */
    method ListAllMetrics() returns (metrics: seq<CustomMetricInfo>)
      ensures forall i, j :: 0 <= i < j < |metrics| ==> metrics[i] != metrics[j]
      ensures (set info <- metrics) == Infos(values)
    {
      var infos: set<CustomMetricInfo> := {};
      var keys := values.Keys;
      while keys != {}
        invariant keys <= values.Keys
        invariant infos == set key <- values.Keys - keys :: key.info
        decreases keys
      {
        var key :| key in keys;
        infos := infos + {key.info};
        keys := keys - {key};
      }
      metrics := [];
      while infos != {}
        invariant forall i, j :: 0 <= i < j < |metrics| ==> metrics[i] != metrics[j]
        invariant forall i :: 0 <= i < |metrics| ==> metrics[i] !in infos
        invariant (set info <- metrics) + infos == Infos(values)
        decreases infos
      {
        var info :| info in infos;
        metrics := metrics + [info];
        infos := infos - {info};
      }
    }

    method GetExternalMetric(namespace: string, selector: Selector, info: ExternalMetricInfo)
      returns (matching: seq<ExternalValue>)
      ensures matching == ValuesOf(Matching(externalMetrics, selector, info))
    {
      matching := [];
      for i := 0 to |externalMetrics|
        invariant matching == ValuesOf(Matching(externalMetrics[..i], selector, info))
      {
        assert externalMetrics[..i + 1][..i] == externalMetrics[..i];
        var metric := externalMetrics[i];
        if metric.info.metric == info.metric && selector.matches(metric.labels) {
          matching := matching + [metric.value];
        }
      }
      assert externalMetrics[..|externalMetrics|] == externalMetrics;
    }
  }
}
