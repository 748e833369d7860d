/** The store of the testing provider as a value: keys, writes, histories of writes, and queries. */
module MetricStore {
  import opened Results
  import opened Schema
  import opened MetricInfo
  import opened Helpers

  /** A resource quantity; its arithmetic plays no part. */
  type Quantity = int

  /** The key of a stored value: which metric, and of which object. */
  datatype MetricKey = MetricKey(info: CustomMetricInfo, name: NamespacedName)

  type Values = map<MetricKey, Quantity>

  type Labels = map<string, string>

  /** A label selector: its text, what it matches, and what parsing its text back yields. */
  datatype Selector = Selector(text: string, matches: Labels -> bool, parsed: Outcome<string>)

  function Everything(): Selector {
    Selector("", labels => true, Ok(""))
  }

  datatype MetricValue = MetricValue(describedObject: ObjectReference, metric: string, selector: Option<string>,
                                     value: Quantity)

  // ----- writes -----

  /** The path parameters of a write and the outcome of decoding its body. */
  datatype WriteRequest = WriteRequest(namespace: string, resourceType: string, name: string, metric: string,
                                       body: Outcome<Quantity>)

  function RawInfo(w: WriteRequest): CustomMetricInfo {
    CustomMetricInfo(ParseGroupResource(w.resourceType), |w.namespace| > 0 || w.resourceType == "namespaces", w.metric)
  }

  /** The key a write stores under. A normalisation error is only logged, so a partly rewritten info is used too. */
  function StoredKey(mapper: RESTMapper, w: WriteRequest): MetricKey {
    MetricKey(Normalized(RawInfo(w), mapper).info, NamespacedName(w.namespace, w.name))
  }

  /** One accepted write, as it reached the map. */
  datatype Commit = Commit(key: MetricKey, value: Quantity)

  /** The map after a log of commits. */
  function Fold(log: seq<Commit>): Values {
    if log == [] then map[]
    else Fold(log[..|log| - 1])[log[|log| - 1].key := log[|log| - 1].value]
  }

  /** A write together with the answers of the mapper at the time. */
  datatype WriteEvent = WriteEvent(mapper: RESTMapper, request: WriteRequest)

  /** The commits a history of writes makes: bodies that do not decode are refused. */
  function Commits(events: seq<WriteEvent>): seq<Commit> {
    if events == [] then []
    else
      var e := events[|events| - 1];
      Commits(events[..|events| - 1]) +
      match e.request.body
      case Err(_) => []
      case Ok(v) => [Commit(StoredKey(e.mapper, e.request), v)]
  }

  function Replay(events: seq<WriteEvent>): Values {
    Fold(Commits(events))
  }

  /** One more write: refused, or put over what was stored under its key. */
  lemma ReplayGrows(history: seq<WriteEvent>, e: WriteEvent)
    ensures Replay(history + [e]) == match e.request.body
                                     case Err(_) => Replay(history)
                                     case Ok(v) => Replay(history)[StoredKey(e.mapper, e.request) := v]
  {
    var log := Commits(history);
    assert (history + [e])[..|history|] == history;
    match e.request.body
    case Err(_) => assert log + [] == log;
    case Ok(v) => assert (log + [Commit(StoredKey(e.mapper, e.request), v)])[..|log|] == log;
  }

  // ----- queries -----

  function ValueFor(mapper: RESTMapper, values: Values, info: CustomMetricInfo, name: NamespacedName)
    : Outcome<Quantity>
  {
    var n := Normalized(info, mapper);
    match n.err
    case Some(e) => Err(e)
    case None =>
      var key := MetricKey(n.info, name);
      if key in values then Ok(values[key])
      else Err(MetricNotFound(n.info.groupResource, n.info.metric, name.name))
  }

  function MetricFor(mapper: RESTMapper, value: Quantity, name: NamespacedName, selector: Selector,
                     info: CustomMetricInfo): Outcome<MetricValue> {
    var described :- ReferenceFor(mapper, name, info);
    WithSelector(MetricValue(described, info.metric, None, value), selector)
  }

  function WithSelector(item: MetricValue, selector: Selector): Outcome<MetricValue> {
    if |selector.text| > 0 then
      var labelSelector :- selector.parsed;
      Ok(item.(selector := Some(labelSelector)))
    else Ok(item)
  }

  function MetricByName(mapper: RESTMapper, values: Values, name: NamespacedName, info: CustomMetricInfo)
    : Outcome<MetricValue>
  {
    var value :- ValueFor(mapper, values, info, name);
    MetricFor(mapper, value, name, Everything(), info)
  }

  /** `r` with `items` put in front, when `r` is a list at all. */
  function Prepend<T>(items: seq<T>, r: Outcome<seq<T>>): Outcome<seq<T>> {
    match r
    case Err(e) => Err(e)
    case Ok(rest) => Ok(items + rest)
  }

  lemma PrependTwice<T>(a: seq<T>, b: seq<T>, r: Outcome<seq<T>>)
    ensures Prepend(a, Prepend(b, r)) == Prepend(a + b, r)
    ensures Prepend([], r) == r
  {
    if r.Ok? {
      assert a + (b + r.value) == a + b + r.value;
      assert [] + r.value == r.value;
    }
  }

  /** The values of the listed names, in order; a name without a value is passed over. */
  function MetricsOfNames(mapper: RESTMapper, values: Values, namespace: string, selector: Selector,
                          info: CustomMetricInfo, names: seq<string>): Outcome<seq<MetricValue>> {
    if names == [] then Ok([]) else
      var name := NamespacedName(namespace, names[0]);
      match ValueFor(mapper, values, info, name)
      case Err(e) =>
        if e.IsNotFound() then MetricsOfNames(mapper, values, namespace, selector, info, names[1..]) else Err(e)
      case Ok(value) =>
        var item :- MetricFor(mapper, value, name, selector, info);
        Prepend([item], MetricsOfNames(mapper, values, namespace, selector, info, names[1..]))
  }

  function MetricsBySelector(mapper: RESTMapper, client: Client, values: Values, namespace: string,
                             selector: Selector, info: CustomMetricInfo): Outcome<seq<MetricValue>> {
    var names :- ObjectNames(mapper, client, namespace, selector.text, info);
    MetricsOfNames(mapper, values, namespace, selector, info, names)
  }

  /** The infos under which something is stored. */
  function Infos(values: Values): set<CustomMetricInfo> {
    set key <- values.Keys :: key.info
  }
}
