/** Reading custom metrics over HTTP: from path segments to a provider query. */
module CustomMetricsRest {
  import opened Results
  import opened Schema
  import opened MetricInfo
  import opened Helpers
  import opened MetricStore
  import opened TestingProvider

  /** What the API server derives from the path of a request. */
  datatype RequestInfo = RequestInfo(namespace: string, resource: string, name: string, subresource: string)

  /** The request info of a GET whose path, after the API group and version, has these segments. */
  function NewRequestInfo(parts: seq<string>): Outcome<RequestInfo>
    requires |parts| >= 1
  {
    if parts[0] == "proxy" || parts[0] == "watch" then
      if |parts| < 2 then Err(Failure("unable to determine kind and namespace from url"))
      else Ok(Interpret(parts[0], parts[1..]))
    else Ok(Interpret("get", parts))
  }

  function Interpret(verb: string, parts: seq<string>): RequestInfo
    requires |parts| >= 1
  {
    var inNamespace := parts[0] == "namespaces" && |parts| > 1;
    // "status" and "finalize" are subresources of the namespace itself
    var own := if inNamespace && |parts| > 2 && parts[2] != "status" && parts[2] != "finalize" then parts[2..] else parts;
    RequestInfo(if inNamespace then parts[1] else "",
                own[0],
                if |own| >= 2 then own[1] else "",
                if |own| >= 3 && verb != "proxy" then own[2] else "")
  }

  /** The provider query a list request amounts to. */
  datatype Query =
    | OneObject(name: NamespacedName, info: CustomMetricInfo)
    | ManyObjects(namespace: string, info: CustomMetricInfo)

  function QueryOf(namespace: string, fieldName: Option<string>, info: RequestInfo): Query {
    var name := match fieldName case None => "*" case Some(n) => n;
    var describesNamespace := namespace != "" && info.resource == "metrics";
    var target := if describesNamespace then NamespacedName("", namespace) else NamespacedName(namespace, name);
    var metric := if describesNamespace
                  then CustomMetricInfo(GroupResource("", "namespaces"), false, name)
                  else CustomMetricInfo(ParseGroupResource(info.resource), namespace != "", info.subresource);
    if target.name == "*" then ManyObjects(target.namespace, metric) else OneObject(target, metric)
  }

  function Answer(mapper: RESTMapper, client: Client, values: Values, query: Query, selector: Selector)
    : Outcome<seq<MetricValue>>
  {
    match query
    case OneObject(name, info) =>
      var item :- MetricByName(mapper, values, name, info);
      Ok([item])
    case ManyObjects(namespace, info) => MetricsBySelector(mapper, client, values, namespace, selector, info)
  }

  /** The storage behind the custom metrics API. */
  class REST {
    const cmProvider: Provider

    constructor (cmProvider: Provider)
      ensures this.cmProvider == cmProvider
    {
      this.cmProvider := cmProvider;
    }

    method List(ctxNamespace: string, labelSelector: Option<Selector>, fieldName: Option<string>,
                requestInfo: Option<RequestInfo>)
      returns (r: Outcome<seq<MetricValue>>)
      ensures requestInfo.None? ==> r.Err?
      ensures requestInfo.Some? ==>
                r == Answer(cmProvider.mapper, cmProvider.client, cmProvider.values,
                            QueryOf(ctxNamespace, fieldName, requestInfo.value),
                            if labelSelector.Some? then labelSelector.value else Everything())
    {
      var selector := Everything();
      if labelSelector.Some? {
        selector := labelSelector.value;
      }
      var name := "*";
      if fieldName.Some? {
        name := fieldName.value;
      }
      var namespace := ctxNamespace;
      if requestInfo.None? {
        return Err(Failure("unable to get resource and metric name from request"));
      }
      var metricName := requestInfo.value.subresource;
      var groupResource := ParseGroupResource(requestInfo.value.resource);
      if namespace != "" && requestInfo.value.resource == "metrics" {
        groupResource := GroupResource("", "namespaces");
        metricName := name;
        name := namespace;
        namespace := "";
      }
      var info := CustomMetricInfo(groupResource, namespace != "", metricName);
      if name == "*" {
        r := cmProvider.GetMetricBySelector(namespace, selector, info);
      } else {
        var one :- cmProvider.GetMetricByName(NamespacedName(namespace, name), info);
        r := Ok([one]);
      }
    }
  }
}
