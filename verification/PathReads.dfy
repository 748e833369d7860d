/** What reads find whose paths name a namespace or all objects. */
module PathReads {
  import opened Results
  import opened Schema
  import opened MetricInfo
  import opened Helpers
  import opened MetricStore
  import opened CustomMetricsRest
  import opened WildcardQueries
  import opened UrlRoundTrip

  const NAMESPACES := GroupResource("", "namespaces")

  // ----- reads that describe a namespace -----

  function NamespacePath(namespace: string, metric: string): seq<string> {
    ["namespaces", namespace, "metrics", metric]
  }

  lemma NamespaceQuery(namespace: string, metric: string)
    requires namespace != "" && metric != ""
    ensures ReadRouted(NamespacePath(namespace, metric))
    ensures var info := NewRequestInfo(NamespacePath(namespace, metric));
            info == Ok(RequestInfo(namespace, "metrics", metric, ""))
            && var metricInfo := CustomMetricInfo(NAMESPACES, false, metric);
               QueryOf(namespace, Some(metric), info.value)
               == if namespace == "*" then ManyObjects("", metricInfo)
                  else OneObject(NamespacedName("", namespace), metricInfo)
  {
    InfoOfPath(OfNamespace("namespaces", namespace, metric));
  }

  /** A read of /namespaces/{namespace}/metrics/{metric} finds exactly what is stored for the namespace as an object of
      no namespace, under the metric of the path and the normal form of namespaces, not namespaced. */
  lemma NamespaceReadExactly(mapper: RESTMapper, client: Client, values: Values, namespace: string, metric: string,
                             selector: Selector)
    requires namespace != "" && namespace != "*" && metric != ""
    ensures var r := Read(mapper, client, values, NamespacePath(namespace, metric), selector);
            && (r.Ok? <==> Known(mapper, NAMESPACES)
                           && MetricKey(CustomMetricInfo(NormalForm(mapper, NAMESPACES), false, metric),
                                        NamespacedName("", namespace)) in values)
            && (r.Ok? ==> var key := MetricKey(CustomMetricInfo(NormalForm(mapper, NAMESPACES), false, metric),
                                               NamespacedName("", namespace));
                          IsTheValue(r, OfNamespace("namespaces", namespace, metric), values[key]))
  {
    hide QueryOf, NewRequestInfo, MetricByName;
    NamespaceQuery(namespace, metric);
    ByNameFinds(mapper, values, NamespacedName("", namespace), CustomMetricInfo(NAMESPACES, false, metric));
  }

  /** Writing to /{alias}/{namespace}/{metric} is always read back there. */
  ghost predicate AlwaysDescribesNamespace(mapper: RESTMapper, alias: string, namespace: string, metric: string) {
    forall client: Client, values, v, selector ::
      IsTheValue(Read(mapper, client, Written(mapper, values, AtRoot(alias, namespace, metric), v),
                      NamespacePath(namespace, metric), selector),
                 OfNamespace("namespaces", namespace, metric), v)
  }

  /** A root-scoped write is read as describing a namespace exactly when its resource type is another name of
      namespaces, not that one itself. */
  lemma NamespaceAliasExactly(mapper: RESTMapper, alias: string, namespace: string, metric: string)
    requires AtRoot(alias, namespace, metric).Routable() && namespace != "*"
    ensures AlwaysDescribesNamespace(mapper, alias, namespace, metric) <==>
            && alias != "namespaces" && Known(mapper, NAMESPACES)
            && StoredForm(mapper, ParseGroupResource(alias)) == NormalForm(mapper, NAMESPACES)
  {
    hide Read, IsTheValue;
    var path := AtRoot(alias, namespace, metric);
    var parts := path.Segments();
    assert parts[1] in parts && parts[2] in parts;
    forall client: Client, values, v, selector
      ensures IsTheValue(Read(mapper, client, Written(mapper, values, path, v), NamespacePath(namespace, metric), selector),
                         OfNamespace("namespaces", namespace, metric), v)
              <== alias != "namespaces" && Known(mapper, NAMESPACES)
                  && StoredForm(mapper, ParseGroupResource(alias)) == NormalForm(mapper, NAMESPACES)
    {
      NamespaceReadOfWritten(mapper, client, values, alias, namespace, metric, v, selector);
    }
    if AlwaysDescribesNamespace(mapper, alias, namespace, metric) {
      NamespaceReadOfNew(mapper, alias, namespace, metric);
    }
  }

  lemma NamespaceReadOfWritten(mapper: RESTMapper, client: Client, values: Values, alias: string, namespace: string,
                               metric: string, v: Quantity, selector: Selector)
    requires namespace != "" && namespace != "*" && metric != ""
    ensures alias != "namespaces" && Known(mapper, NAMESPACES)
            && StoredForm(mapper, ParseGroupResource(alias)) == NormalForm(mapper, NAMESPACES) ==>
              IsTheValue(Read(mapper, client, Written(mapper, values, AtRoot(alias, namespace, metric), v),
                              NamespacePath(namespace, metric), selector),
                         OfNamespace("namespaces", namespace, metric), v)
  {
    hide Read, IsTheValue;
    var path := AtRoot(alias, namespace, metric);
    NamespaceReadExactly(mapper, client, Written(mapper, values, path, v), namespace, metric, selector);
    StoredKeyForm(mapper, path.Request(Ok(v)));
  }

  /** The first write into an empty store is found only under these conditions. */
  lemma NamespaceReadOfNew(mapper: RESTMapper, alias: string, namespace: string, metric: string)
    requires namespace != "" && namespace != "*" && metric != ""
    requires AlwaysDescribesNamespace(mapper, alias, namespace, metric)
    ensures alias != "namespaces" && Known(mapper, NAMESPACES)
            && StoredForm(mapper, ParseGroupResource(alias)) == NormalForm(mapper, NAMESPACES)
  {
    hide Read;
    var path := AtRoot(alias, namespace, metric);
    var values := Written(mapper, map[], path, 0);
    assert IsTheValue(Read(mapper, FailingClient(), values, NamespacePath(namespace, metric), Everything()),
                      OfNamespace("namespaces", namespace, metric), 0);
    NamespaceReadExactly(mapper, FailingClient(), values, namespace, metric, Everything());
    StoredKeyForm(mapper, path.Request(Ok(0)));
  }

  // ----- reads of all objects -----

  /** The path with "*" for the object's name. */
  function Wildcard(path: WritePath): WritePath {
    match path
    case InNamespace(namespace, resourceType, _, metric) => InNamespace(namespace, resourceType, "*", metric)
    case AtRoot(resourceType, _, metric) => AtRoot(resourceType, "*", metric)
    case OfNamespace(resourceType, _, metric) => OfNamespace(resourceType, "*", metric)
  }

  /** No segment has a second meaning to the reader. */
  predicate Plain(path: WritePath) {
    match path
    case InNamespace(_, resourceType, _, _) =>
      resourceType != "metrics" && resourceType != "status" && resourceType != "finalize"
    case AtRoot(resourceType, _, _) => resourceType != "namespaces" && resourceType != "proxy" && resourceType != "watch"
    case OfNamespace(_, _, _) => false
  }

  /** What a plain path is about: namespaced exactly if it names a namespace. */
  function InfoOf(path: WritePath): CustomMetricInfo {
    CustomMetricInfo(ParseGroupResource(path.resourceType), path.InNamespace?, path.metric)
  }

  /** Reading a path with "*" is the selector query of its namespace, resource and metric. */
  lemma WildcardReads(mapper: RESTMapper, client: Client, values: Values, path: WritePath, selector: Selector)
    requires path.Routable() && Plain(path)
    ensures Read(mapper, client, values, Wildcard(path).Segments(), selector)
         == MetricsBySelector(mapper, client, values, if path.InNamespace? then path.namespace else "", selector,
                              InfoOf(path))
  {
    hide MetricsBySelector, QueryOf, NewRequestInfo, ParseGroupResource;
    var all := Wildcard(path);
    var parts, given := all.Segments(), path.Segments();
    assert forall k :: 0 <= k < |parts| ==> parts[k] == given[k] || parts[k] == "*";
    assert forall k :: 0 <= k < |given| ==> given[k] in given;
    assert all.Routable();
    InfoOfPath(all);
    var info := NewRequestInfo(parts).value;
    assert path.InNamespace? ==> given[1] == path.namespace;
    PlainQuery(info.namespace, "*", info);
  }

  /** So is reading the metric of all namespaces. */
  lemma WildcardReadsNamespaces(mapper: RESTMapper, client: Client, values: Values, metric: string, selector: Selector)
    requires metric != ""
    ensures Read(mapper, client, values, NamespacePath("*", metric), selector)
         == MetricsBySelector(mapper, client, values, "", selector, CustomMetricInfo(NAMESPACES, false, metric))
  {
    hide MetricsBySelector, QueryOf, NewRequestInfo;
    NamespaceQuery("*", metric);
  }

  /** A path that stops at a namespace's resource names neither object nor metric: it is the selector query of all
      objects for the nameless metric, and for "metrics" the query for the metric "*" of the namespace itself. */
  lemma NamelessReads(mapper: RESTMapper, client: Client, values: Values, namespace: string, resource: string,
                      selector: Selector)
    requires namespace != "" && namespace != "*" && resource != "status" && resource != "finalize"
    ensures var r := Read(mapper, client, values, ["namespaces", namespace, resource], selector);
            && (resource != "metrics" ==>
                  r == MetricsBySelector(mapper, client, values, namespace, selector,
                                         CustomMetricInfo(ParseGroupResource(resource), true, "")))
            && (resource == "metrics" ==>
                  r == var item := MetricByName(mapper, values, NamespacedName("", namespace),
                                                CustomMetricInfo(NAMESPACES, false, "*"));
                       if item.Ok? then Ok([item.value]) else Err(item.error))
  {
    hide MetricsBySelector, MetricByName, ParseGroupResource;
    var parts := ["namespaces", namespace, resource];
    assert parts[2..] == [resource];
    assert NewRequestInfo(parts) == Ok(RequestInfo(namespace, resource, "", ""));
  }

  /** What was written for an object is among the items of the "*" path if the cluster lists the object there. */
  lemma WildcardFindsWritten(mapper: RESTMapper, client: Client, values: Values, path: WritePath, selector: Selector,
                             v: Quantity, offered: seq<GroupVersionResource>, items: seq<Object>) returns (i: nat)
    requires path.Routable() && Plain(path) && Known(mapper, ParseGroupResource(path.resourceType))
    requires mapper.ResourcesFor(ParseGroupResource(path.resourceType).WithVersion("")) == Ok(offered) && offered != []
    requires client(offered[0], if path.InNamespace? then Some(path.namespace) else None, selector.text)
             == Ok(Items(items))
    requires Object(path.name) in items && (selector.text == "" || selector.parsed.Ok?)
    ensures var r := Read(mapper, client, Written(mapper, values, path, v), Wildcard(path).Segments(), selector);
            && r.Ok? && i < |r.value|
            && r.value[i].value == v && r.value[i].metric == path.metric
            && r.value[i].describedObject.name == path.name
            && r.value[i].describedObject.namespace == (if path.InNamespace? then path.namespace else "")
  {
    hide Read, MetricsOfNames, ParseGroupResource, WithValue;
    var namespace := if path.InNamespace? then path.namespace else "";
    var info, after := InfoOf(path), Written(mapper, values, path, v);
    WildcardReads(mapper, client, after, path, selector);
    NamesAreTheListed(mapper, client, namespace, selector, info);
    var names := ObjectNames(mapper, client, namespace, selector.text, info).value;
    NamesSucceed(mapper, after, namespace, selector, info, names);
    var at := ItemsOfNames(mapper, after, namespace, selector, info, names);
    var j: nat :| j < |items| && items[j] == Object(path.name);
    WrittenIsFound(mapper, values, path, v);
    assert HasValue(mapper, after, namespace, info, names[j]);
    assert j in at;
    i :| 0 <= i < |at| && at[i] == j;
  }

  lemma WrittenIsFound(mapper: RESTMapper, values: Values, path: WritePath, v: Quantity)
    requires path.Routable() && Plain(path) && Known(mapper, ParseGroupResource(path.resourceType))
    ensures ValueFor(mapper, Written(mapper, values, path, v), InfoOf(path),
                     NamespacedName(if path.InNamespace? then path.namespace else "", path.name)) == Ok(v)
  {
    hide ParseGroupResource;
    var parts := path.Segments();
    assert forall k :: 0 <= k < |parts| ==> parts[k] in parts;
    assert path.InNamespace? ==> parts[1] == path.namespace;
    StoredKeyForm(mapper, path.Request(Ok(v)));
    NormalizedMeaning(InfoOf(path), mapper);
  }
}
