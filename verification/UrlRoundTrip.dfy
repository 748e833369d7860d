/** Writing a metric to a path and reading the same path back. */
module UrlRoundTrip {
  import opened Results
  import opened Schema
  import opened MetricInfo
  import opened Helpers
  import opened MetricStore
  import opened StoreHistory
  import opened CustomMetricsRest

  /** A path the write service routes; the three shapes are its three routes. */
  datatype WritePath =
    | InNamespace(namespace: string, resourceType: string, name: string, metric: string)
    | AtRoot(resourceType: string, name: string, metric: string)
    | OfNamespace(resourceType: string, name: string, metric: string)
  {
    /** The segments after the service's prefix. */
    function Segments(): seq<string> {
      match this
      case InNamespace(namespace, resourceType, name, metric) => ["namespaces", namespace, resourceType, name, metric]
      case AtRoot(resourceType, name, metric) => [resourceType, name, metric]
      case OfNamespace(resourceType, name, metric) => [resourceType, name, "metrics", metric]
    }

    /** A router binds path parameters to non-empty segments only. */
    predicate Routable() {
      forall s <- Segments() :: s != ""
    }

    function Request(body: Outcome<Quantity>): WriteRequest {
      WriteRequest(if InNamespace? then namespace else "", resourceType, name, metric, body)
    }
  }

  /** The three read routes, by shape. */
  predicate ReadRouted(parts: seq<string>) {
    || |parts| == 3
    || (|parts| == 5 && parts[0] == "namespaces")
    || (|parts| == 4 && parts[0] == "namespaces" && parts[2] == "metrics")
  }

  /** A GET of the path, without a field selector in its query. */
  function Read(mapper: RESTMapper, client: Client, values: Values, parts: seq<string>, selector: Selector)
    : Outcome<seq<MetricValue>>
  {
    if !ReadRouted(parts) then Err(Failure("404 page not found")) else
      var info :- NewRequestInfo(parts);
      var fieldName := if |info.name| > 0 then Some(info.name) else None;
      Answer(mapper, client, values, QueryOf(info.namespace, fieldName, info), selector)
  }

  /** One item with this value, for the metric and the object of the path. */
  predicate IsTheValue(r: Outcome<seq<MetricValue>>, path: WritePath, v: Quantity) {
    && r.Ok? && |r.value| == 1
    && r.value[0].value == v
    && r.value[0].metric == path.metric
    && r.value[0].describedObject.name == path.name
    && r.value[0].describedObject.namespace == path.Request(Ok(v)).namespace
    && r.value[0].selector == None
  }

  /** The map once a write to `path` is accepted. */
  function Written(mapper: RESTMapper, values: Values, path: WritePath, v: Quantity): Values {
    values[StoredKey(mapper, path.Request(Ok(v))) := v]
  }

  /** Whatever was stored before and whatever the cluster holds, the path reads back what was written to it. */
  ghost predicate AlwaysReadsBack(mapper: RESTMapper, path: WritePath) {
    forall client: Client, values, v, selector ::
      IsTheValue(Read(mapper, client, Written(mapper, values, path, v), path.Segments(), selector), path, v)
  }

  /** The mapper can resolve the resource and name its kind. */
  predicate Known(mapper: RESTMapper, gr: GroupResource) {
    Resolves(mapper, gr) && mapper.KindFor(gr.WithVersion("")).Ok?
  }

  /** The group-resource a write through `gr` is stored under, resolvable or not. */
  function StoredForm(mapper: RESTMapper, gr: GroupResource): GroupResource {
    if mapper.ResourceFor(gr.WithVersion("")).Ok? then NormalForm(mapper, gr) else gr
  }

  lemma StoredKeyForm(mapper: RESTMapper, w: WriteRequest)
    ensures StoredKey(mapper, w) ==
            MetricKey(RawInfo(w).(groupResource := StoredForm(mapper, RawInfo(w).groupResource)),
                      NamespacedName(w.namespace, w.name))
  {
  }

  /** Which paths read back: the resource is known and no segment has a second meaning to the reader. A namespaced
      path through "status" or "finalize" is read as describing the namespace itself, and so only reads back in the
      degenerate case that it says the same thing twice. */
  predicate ReadsBack(mapper: RESTMapper, path: WritePath) {
    var gr := ParseGroupResource(path.resourceType);
    match path
    case InNamespace(namespace, resourceType, name, metric) =>
      && name != "*"
      && resourceType != "metrics"
      && (resourceType == "status" || resourceType == "finalize" ==>
            && name == namespace && metric == resourceType
            && Known(mapper, GroupResource("", "namespaces"))
            && StoredForm(mapper, gr) == NormalForm(mapper, GroupResource("", "namespaces")))
      && (resourceType != "status" && resourceType != "finalize" ==> Known(mapper, gr))
    case AtRoot(resourceType, name, metric) =>
      && name != "*"
      && resourceType != "namespaces" && resourceType != "proxy" && resourceType != "watch"
      && Known(mapper, gr)
    case OfNamespace(_, _, _) => false
  }

  lemma UndottedIsCoreGroup(text: string)
    requires '.' !in text
    ensures ParseGroupResource(text) == GroupResource("", text)
  {
  }

  lemma NamespacesIsUndotted()
    ensures forall text: string :: text == "namespaces" ==> ParseGroupResource(text) == GroupResource("", text)
  {
    forall text: string | text == "namespaces" ensures ParseGroupResource(text) == GroupResource("", text) {
      assert '.' !in text;
      UndottedIsCoreGroup(text);
    }
  }

  /** What the request of a path says to the reader. */
  lemma InfoOfPath(path: WritePath)
    requires path.Routable()
    ensures path.InNamespace? ==>
              NewRequestInfo(path.Segments()) == Ok(
                if path.resourceType == "status" || path.resourceType == "finalize"
                then RequestInfo(path.namespace, "namespaces", path.namespace, path.resourceType)
                else RequestInfo(path.namespace, path.resourceType, path.name, path.metric))
    ensures path.AtRoot? && path.resourceType != "proxy" && path.resourceType != "watch" ==>
              NewRequestInfo(path.Segments()) == Ok(
                if path.resourceType != "namespaces" then RequestInfo("", path.resourceType, path.name, path.metric)
                else if path.metric == "status" || path.metric == "finalize"
                then RequestInfo(path.name, "namespaces", path.name, path.metric)
                else RequestInfo(path.name, path.metric, "", ""))
    ensures path.AtRoot? && (path.resourceType == "proxy" || path.resourceType == "watch") ==>
              NewRequestInfo(path.Segments()) == Ok(
                RequestInfo(if path.name == "namespaces" then path.metric else "", path.name, path.metric, ""))
    ensures path.OfNamespace? ==>
              (ReadRouted(path.Segments()) <==> path.resourceType == "namespaces")
    ensures path.OfNamespace? && path.resourceType == "namespaces" ==>
              NewRequestInfo(path.Segments()) == Ok(RequestInfo(path.name, "metrics", path.metric, ""))
  {
    var parts := path.Segments();
    match path
    case InNamespace(namespace, resourceType, name, metric) =>
      assert parts[2..] == [resourceType, name, metric];
    case AtRoot(resourceType, name, metric) =>
      assert parts[1..] == [name, metric] && parts[2..] == [metric];
    case OfNamespace(resourceType, name, metric) =>
      assert parts[2..] == ["metrics", metric];
  }

  /** A special verb is not part of the resource: alone it is an error, and after "proxy" there are no subresources. */
  lemma SpecialVerbs(verb: string, resource: string, name: string, subresource: string)
    requires verb == "proxy" || verb == "watch"
    ensures NewRequestInfo([verb]).Err?
    ensures resource != "namespaces" ==>
              NewRequestInfo([verb, resource, name, subresource])
              == Ok(RequestInfo("", resource, name, if verb == "proxy" then "" else subresource))
  {
    var parts := [verb, resource, name, subresource];
    assert parts[1..] == [resource, name, subresource];
  }

  /** A by-name query finds a stored value exactly through the key of its normal form. */
  lemma ByNameFinds(mapper: RESTMapper, values: Values, name: NamespacedName, info: CustomMetricInfo)
    ensures MetricByName(mapper, values, name, info).Ok? <==>
              && Known(mapper, info.groupResource)
              && MetricKey(info.(groupResource := NormalForm(mapper, info.groupResource)), name) in values
    ensures MetricByName(mapper, values, name, info).Ok? ==>
              var item := MetricByName(mapper, values, name, info).value;
              && item.value == values[MetricKey(info.(groupResource := NormalForm(mapper, info.groupResource)), name)]
              && item.metric == info.metric && item.selector == None
              && item.describedObject.name == name.name && item.describedObject.namespace == name.namespace
  {
    NormalizedMeaning(info, mapper);
  }

  lemma PlainQuery(namespace: string, fieldName: string, info: RequestInfo)
    requires namespace == "" || info.resource != "metrics"
    ensures var metric := CustomMetricInfo(ParseGroupResource(info.resource), namespace != "", info.subresource);
            QueryOf(namespace, Some(fieldName), info) ==
            if fieldName == "*" then ManyObjects(namespace, metric)
            else OneObject(NamespacedName(namespace, fieldName), metric)
  {
  }

  /** The query a readable path amounts to: its own object, under a group-resource with the written normal form. */
  lemma QueryHits(mapper: RESTMapper, path: WritePath, info: RequestInfo)
    requires path.Routable() && ReadsBack(mapper, path) && NewRequestInfo(path.Segments()) == Ok(info)
    ensures info.name == path.name && info.subresource == path.metric
    ensures info.name != "*" && info.name != "" && ReadRouted(path.Segments())
    ensures info.namespace == "" || info.resource != "metrics"
    ensures info.namespace == (if path.InNamespace? then path.namespace else "")
    ensures (info.namespace != "") == RawInfo(path.Request(Ok(0))).namespaced
    ensures info.resource == path.resourceType
         || (info.resource == "namespaces" && (path.resourceType == "status" || path.resourceType == "finalize"))
  {
    var parts := path.Segments();
    InfoOfPath(path);
    assert forall s <- parts :: s != "";
    assert parts[|parts| - 2] in parts && parts[1] in parts;
  }

  lemma ResourceHits(mapper: RESTMapper, path: WritePath, resource: string)
    requires resource == if path.InNamespace? && (path.resourceType == "status" || path.resourceType == "finalize")
                         then "namespaces" else path.resourceType
    ensures ReadsBack(mapper, path) ==>
              && Known(mapper, ParseGroupResource(resource))
              && NormalForm(mapper, ParseGroupResource(resource))
                 == StoredForm(mapper, ParseGroupResource(path.resourceType))
  {
    NamespacesIsUndotted();
  }

  /** While the written key holds a value, its path reads that value. */
  lemma ReadHits(mapper: RESTMapper, client: Client, values: Values, path: WritePath, selector: Selector, v: Quantity)
    requires path.Routable() && ReadsBack(mapper, path)
    requires StoredKey(mapper, path.Request(Ok(v))) in values
    requires values[StoredKey(mapper, path.Request(Ok(v)))] == v
    ensures IsTheValue(Read(mapper, client, values, path.Segments(), selector), path, v)
  {
    InfoOfPath(path);
    var info := NewRequestInfo(path.Segments()).value;
    QueryHits(mapper, path, info);
    ResourceHits(mapper, path, info.resource);
    PlainQuery(info.namespace, info.name, info);
    StoredKeyForm(mapper, path.Request(Ok(v)));
    var metric := CustomMetricInfo(ParseGroupResource(info.resource), info.namespace != "", info.subresource);
    ByNameFinds(mapper, values, NamespacedName(info.namespace, info.name), metric);
  }

  /** A client every list call of which fails. */
  function FailingClient(): Client {
    (resource, scope, text) => Err(Failure("no cluster"))
  }

  /** With an empty store before the write and no cluster, a path outside the condition does not read back. */
  lemma ReadMisses(mapper: RESTMapper, path: WritePath)
    requires path.Routable() && !ReadsBack(mapper, path)
    ensures var values := Written(mapper, map[], path, 0);
            !IsTheValue(Read(mapper, FailingClient(), values, path.Segments(), Everything()), path, 0)
  {
    var parts := path.Segments();
    if ReadRouted(parts) {
      var info := NewRequestInfo(parts).value;
      var query := QueryOf(info.namespace, if |info.name| > 0 then Some(info.name) else None, info);
      AnswerMisses(mapper, path, info, query);
    }
  }

  lemma AnswerMisses(mapper: RESTMapper, path: WritePath, info: RequestInfo, query: Query)
    requires path.Routable() && !ReadsBack(mapper, path) && ReadRouted(path.Segments())
    requires NewRequestInfo(path.Segments()) == Ok(info)
    requires query == QueryOf(info.namespace, if |info.name| > 0 then Some(info.name) else None, info)
    ensures !IsTheValue(Answer(mapper, FailingClient(), Written(mapper, map[], path, 0), query, Everything()), path, 0)
  {
    hide NewRequestInfo, QueryOf, ReadsBack, ReadRouted, ParseGroupResource, MetricByName, MetricsOfNames, StoredKey;
    match query
    case ManyObjects(namespace, metric) =>
      assert ObjectNames(mapper, FailingClient(), namespace, Everything().text, metric).Err?;
    case OneObject(name, metric) =>
      ByNameFinds(mapper, Written(mapper, map[], path, 0), name, metric);
      OneObjectMisses(mapper, path, info, query);
  }

  /** A reader asking for the same object and metric still looks under another key. */
  lemma OneObjectMisses(mapper: RESTMapper, path: WritePath, info: RequestInfo, query: Query)
    requires path.Routable() && !ReadsBack(mapper, path) && ReadRouted(path.Segments())
    requires NewRequestInfo(path.Segments()) == Ok(info)
    requires query == QueryOf(info.namespace, if |info.name| > 0 then Some(info.name) else None, info)
    ensures query.OneObject? && Known(mapper, query.info.groupResource) ==>
              query.name.name == path.name && query.info.metric == path.metric ==>
              MetricKey(query.info.(groupResource := NormalForm(mapper, query.info.groupResource)), query.name)
              != StoredKey(mapper, path.Request(Ok(0)))
  {
    var w := path.Request(Ok(0));
    var parts := path.Segments();
    InfoOfPath(path);
    StoredKeyForm(mapper, w);
    assert forall s <- parts :: s != "";
    if info.namespace != "" && info.resource == "metrics" {
      assert !query.info.namespaced;
      assert parts[|parts| - 1] in parts && parts[1] in parts;
    } else if path.InNamespace? {
      assert parts[3] in parts && parts[1] in parts;
      PlainQuery(info.namespace, info.name, info);
      NamespacesIsUndotted();
    } else {
      assert parts[0] in parts && parts[1] in parts && parts[2] in parts;
    }
  }

  /** A path reads back what was written to it, over every earlier store and every cluster, exactly when the reader
      gives none of its segments another meaning and the mapper knows the resource and its kind. In particular no
      path of the route for namespaces does. */
  lemma ReadsBackExactly(mapper: RESTMapper, path: WritePath)
    requires path.Routable()
    ensures AlwaysReadsBack(mapper, path) <==> ReadsBack(mapper, path)
  {
    if ReadsBack(mapper, path) {
      forall client: Client, values, v, selector
        ensures IsTheValue(Read(mapper, client, Written(mapper, values, path, v), path.Segments(), selector), path, v)
      {
        ReadHits(mapper, client, Written(mapper, values, path, v), path, selector, v);
      }
    } else {
      ReadMisses(mapper, path);
    }
  }

  /** The value stays readable through any later history of writes to other keys, whatever the mapper answered then. */
  lemma ReadsBackLater(mapper: RESTMapper, client: Client, before: seq<WriteEvent>, path: WritePath, v: Quantity,
                       after: seq<WriteEvent>, selector: Selector)
    requires path.Routable() && ReadsBack(mapper, path)
    requires forall e <- after :: !Writes(e, StoredKey(mapper, path.Request(Ok(v))))
    ensures var events := before + [WriteEvent(mapper, path.Request(Ok(v)))] + after;
            IsTheValue(Read(mapper, client, Replay(events), path.Segments(), selector), path, v)
  {
    var w := path.Request(Ok(v));
    var events := before + [WriteEvent(mapper, w)] + after;
    var key := StoredKey(mapper, w);
    assert IsLatestWrite(events, key, |before|);
    KeyHoldsLatest(events, key);
    ReadHits(mapper, client, Replay(events), path, selector, v);
  }

  /** A read of /namespaces/{namespace}/metrics/{metric} sees no write whose resource type is literally "namespaces",
      of any history: such writes are keyed as namespaced, the read is not. */
  lemma NamespaceReadsSkipNamespaceWrites(mapper: RESTMapper, events: seq<WriteEvent>, namespace: string, metric: string)
    requires namespace != "" && namespace != "*" && metric != ""
    requires forall e <- events :: e.request.resourceType == "namespaces"
    ensures forall client: Client, selector ::
              Read(mapper, client, Replay(events), ["namespaces", namespace, "metrics", metric], selector).Err?
  {
    var info := CustomMetricInfo(GroupResource("", "namespaces"), false, metric);
    var name := NamespacedName("", namespace);
    var key := MetricKey(Normalized(info, mapper).info, name);
    forall e <- events ensures !Writes(e, key) {
      StoredKeyForm(e.mapper, e.request);
      NormalizedMeaning(info, mapper);
    }
    LastWriteWins(mapper, events, info, name);
    var path := OfNamespace("namespaces", namespace, metric);
    assert path.Segments() == ["namespaces", namespace, "metrics", metric];
    InfoOfPath(path);
    assert QueryOf(namespace, Some(metric), RequestInfo(namespace, "metrics", metric, "")) == OneObject(name, info);
  }
}
