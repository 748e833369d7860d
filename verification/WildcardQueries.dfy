/** Selector queries against by-name queries. */
module WildcardQueries {
  import opened Results
  import opened Schema
  import opened MetricInfo
  import opened Helpers
  import opened MetricStore

  /** The reference: ask for every listed name in turn, pass over the not-found answers, stop at any other error,
      and label each answer with the selector. */
  function ByNameAnswers(mapper: RESTMapper, values: Values, namespace: string, selector: Selector,
                         info: CustomMetricInfo, names: seq<string>): Outcome<seq<MetricValue>> {
    if names == [] then Ok([]) else
      var rest := ByNameAnswers(mapper, values, namespace, selector, info, names[1..]);
      match MetricByName(mapper, values, NamespacedName(namespace, names[0]), info)
      case Err(e) => if e.IsNotFound() then rest else Err(e)
      case Ok(item) =>
        var labelled :- WithSelector(item, selector);
        Prepend([labelled], rest)
  }

  /** The listed names asked one by one, or the error of the listing. */
  function ListedByName(mapper: RESTMapper, client: Client, values: Values, namespace: string, selector: Selector,
                        info: CustomMetricInfo): Outcome<seq<MetricValue>> {
    var names :- ObjectNames(mapper, client, namespace, selector.text, info);
    ByNameAnswers(mapper, values, namespace, selector, info, names)
  }

  /** With any store and any cluster, a selector query is the by-name queries of the listed objects. */
  ghost predicate SelectorIsByName(mapper: RESTMapper, namespace: string, selector: Selector, info: CustomMetricInfo) {
    forall client: Client, values ::
      MetricsBySelector(mapper, client, values, namespace, selector, info)
      == ListedByName(mapper, client, values, namespace, selector, info)
  }

  /** The mapper knows the resource but answers "not found" for its kind. */
  predicate KindIsNotFound(mapper: RESTMapper, info: CustomMetricInfo) {
    var kind := mapper.KindFor(info.groupResource.WithVersion(""));
    kind.Err? && kind.error.IsNotFound()
  }

  lemma {:induction false} NamesAgree(mapper: RESTMapper, values: Values, namespace: string, selector: Selector,
                                      info: CustomMetricInfo, names: seq<string>)
    requires !KindIsNotFound(mapper, info) || !Resolves(mapper, info.groupResource)
    ensures MetricsOfNames(mapper, values, namespace, selector, info, names)
         == ByNameAnswers(mapper, values, namespace, selector, info, names)
  {
    if names != [] {
      NamesAgree(mapper, values, namespace, selector, info, names[1..]);
      NormalizedMeaning(info, mapper);
    }
  }

  /** The two agree except when a kind is reported as not found: by name that is one more missing metric, in a
      selector query it fails the whole list. */
  lemma SelectorIsByNameExactly(mapper: RESTMapper, namespace: string, selector: Selector, info: CustomMetricInfo)
    ensures SelectorIsByName(mapper, namespace, selector, info) <==>
            !(ResourceFor(mapper, info).Ok? && Resolves(mapper, info.groupResource) && KindIsNotFound(mapper, info))
  {
    if ResourceFor(mapper, info).Ok? && Resolves(mapper, info.groupResource) && KindIsNotFound(mapper, info) {
      KindFailsTheList(mapper, namespace, selector, info);
    } else if ResourceFor(mapper, info).Ok? {
      forall client: Client, values
        ensures MetricsBySelector(mapper, client, values, namespace, selector, info)
             == ListedByName(mapper, client, values, namespace, selector, info)
      {
        var names := ObjectNames(mapper, client, namespace, selector.text, info);
        if names.Ok? {
          NamesAgree(mapper, values, namespace, selector, info, names.value);
        }
      }
    }
  }

  /** The counterexample: one listed object with a value, and no kind for its resource. */
  lemma KindFailsTheList(mapper: RESTMapper, namespace: string, selector: Selector, info: CustomMetricInfo)
    requires ResourceFor(mapper, info).Ok? && Resolves(mapper, info.groupResource) && KindIsNotFound(mapper, info)
    ensures !SelectorIsByName(mapper, namespace, selector, info)
  {
    var client: Client := (resource, scope, text) => Ok(Items([Object("x")]));
    var key := MetricKey(Normalized(info, mapper).info, NamespacedName(namespace, "x"));
    NormalizedMeaning(info, mapper);
    var names := Names([Object("x")]);
    assert names == ["x"] && names[1..] == [];
    assert ObjectNames(mapper, client, namespace, selector.text, info) == Ok(names);
    assert MetricsOfNames(mapper, map[key := 0], namespace, selector, info, names).Err?;
    assert ByNameAnswers(mapper, map[key := 0], namespace, selector, info, names) == Ok([]);
    assert MetricsBySelector(mapper, client, map[key := 0], namespace, selector, info).Err?;
  }

  // ----- which list call a selector query makes -----

  /** A selector query depends on the cluster through one list call only: of the first resource the mapper offers, in
      the query's namespace if the metric is namespaced and cluster-wide if not, with the selector's text. */
  lemma OneListCallDecides(mapper: RESTMapper, a: Client, b: Client, values: Values, namespace: string,
                           selector: Selector, info: CustomMetricInfo, offered: seq<GroupVersionResource>)
    requires mapper.ResourcesFor(GroupVersionResource(info.groupResource.group, "", info.groupResource.resource))
             == Ok(offered)
    requires offered != [] ==> var scope := if info.namespaced then Some(namespace) else None;
                               a(offered[0], scope, selector.text) == b(offered[0], scope, selector.text)
    ensures MetricsBySelector(mapper, a, values, namespace, selector, info)
         == MetricsBySelector(mapper, b, values, namespace, selector, info)
  {
    hide MetricsOfNames;
  }

  /** The names asked for are those of the objects listed there, in order; whatever else is answered fails the query,
      as does a resource the mapper cannot offer. */
  lemma NamesAreTheListed(mapper: RESTMapper, client: Client, namespace: string, selector: Selector,
                          info: CustomMetricInfo)
    ensures var offered := mapper.ResourcesFor(
                             GroupVersionResource(info.groupResource.group, "", info.groupResource.resource));
            var names := ObjectNames(mapper, client, namespace, selector.text, info);
            && (offered.Err? || offered.value == [] ==> names.Err?)
            && (offered.Ok? && offered.value != [] ==>
                  var answer := client(offered.value[0], if info.namespaced then Some(namespace) else None, selector.text);
                  && (names.Ok? <==> answer.Ok? && answer.value.Items?)
                  && (names.Ok? ==> |names.value| == |answer.value.items|
                                    && forall i :: 0 <= i < |names.value| ==> names.value[i] == answer.value.items[i].name)
                  && (answer.Err? ==> names == Err(answer.error))
                  && (answer.Ok? && answer.value.Undecodable? ==> names == Err(answer.value.error)))
    ensures forall values :: ObjectNames(mapper, client, namespace, selector.text, info).Err? ==>
              MetricsBySelector(mapper, client, values, namespace, selector, info)
              == Err(ObjectNames(mapper, client, namespace, selector.text, info).error)
  {
  }

  // ----- what an answer holds -----

  /** The item says what is stored for the object: its value, the object described by its kind, and the selector asked
      with, unless it is empty. */
  ghost predicate Describes(mapper: RESTMapper, values: Values, name: NamespacedName, selector: Selector,
                            info: CustomMetricInfo, item: MetricValue) {
    var kind := mapper.KindFor(GroupVersionResource(info.groupResource.group, "", info.groupResource.resource));
    && kind.Ok?
    && item.describedObject.apiVersion == kind.value.group + "/" + kind.value.version
    && item.describedObject.kind == kind.value.kind
    && item.describedObject.name == name.name && item.describedObject.namespace == name.namespace
    && item.metric == info.metric
    && ValueFor(mapper, values, info, name) == Ok(item.value)
    && (selector.text == "" ==> item.selector == None)
    && (selector.text != "" ==> selector.parsed.Ok? && item.selector == Some(selector.parsed.value))
  }

  lemma MetricForDescribes(mapper: RESTMapper, values: Values, name: NamespacedName, selector: Selector,
                           info: CustomMetricInfo, value: Quantity)
    requires ValueFor(mapper, values, info, name) == Ok(value)
    ensures MetricFor(mapper, value, name, selector, info).Ok? ==>
              Describes(mapper, values, name, selector, info, MetricFor(mapper, value, name, selector, info).value)
    ensures MetricFor(mapper, value, name, selector, info).Ok? <==>
              && mapper.KindFor(GroupVersionResource(info.groupResource.group, "", info.groupResource.resource)).Ok?
              && (selector.text == "" || selector.parsed.Ok?)
  {
    hide ValueFor;
  }

  /** A by-name query gives the item of the object asked for, without a selector. */
  lemma ByNameDescribes(mapper: RESTMapper, values: Values, name: NamespacedName, info: CustomMetricInfo)
    ensures MetricByName(mapper, values, name, info).Ok? ==>
              Describes(mapper, values, name, Everything(), info, MetricByName(mapper, values, name, info).value)
  {
    hide Describes, MetricFor;
    var value := ValueFor(mapper, values, info, name);
    if value.Ok? {
      MetricForDescribes(mapper, values, name, Everything(), info, value.value);
    }
  }

  predicate HasValue(mapper: RESTMapper, values: Values, namespace: string, info: CustomMetricInfo, name: string) {
    ValueFor(mapper, values, info, NamespacedName(namespace, name)).Ok?
  }

  /** The names at which a value is found, in order. */
  function WithValue(mapper: RESTMapper, values: Values, namespace: string, info: CustomMetricInfo, names: seq<string>)
    : seq<string>
  {
    if names == [] then []
    else
      var n := |names| - 1;
      WithValue(mapper, values, namespace, info, names[..n])
      + if HasValue(mapper, values, namespace, info, names[n]) then [names[n]] else []
  }

  lemma {:induction false} WithValueFirst(mapper: RESTMapper, values: Values, namespace: string,
                                          info: CustomMetricInfo, names: seq<string>)
    requires names != []
    ensures WithValue(mapper, values, namespace, info, names)
         == (if HasValue(mapper, values, namespace, info, names[0]) then [names[0]] else [])
            + WithValue(mapper, values, namespace, info, names[1..])
  {
    hide HasValue;
    var n := |names| - 1;
    if n > 0 {
      WithValueFirst(mapper, values, namespace, info, names[..n]);
      assert names[..n][1..] == names[1..][..n - 1];
    }
  }

  /** The positions of `names`, in increasing order, at which a value is found. */
  ghost predicate Positions(mapper: RESTMapper, values: Values, namespace: string, info: CustomMetricInfo,
                            names: seq<string>, at: seq<nat>) {
    && (forall k, l :: 0 <= k < l < |at| ==> at[k] < at[l])
    && (forall i: nat :: i in at <==> i < |names| && HasValue(mapper, values, namespace, info, names[i]))
  }

  lemma {:induction false} WithValuePositions(mapper: RESTMapper, values: Values, namespace: string,
                                              info: CustomMetricInfo, names: seq<string>) returns (at: seq<nat>)
    ensures Positions(mapper, values, namespace, info, names, at)
    ensures |at| == |WithValue(mapper, values, namespace, info, names)|
    ensures forall k :: 0 <= k < |at| ==>
              at[k] < |names| && WithValue(mapper, values, namespace, info, names)[k] == names[at[k]]
  {
    hide HasValue;
    at := [];
    if names != [] {
      var n := |names| - 1;
      at := WithValuePositions(mapper, values, namespace, info, names[..n]);
      assert forall i: nat :: i in at ==> i < n;
      if HasValue(mapper, values, namespace, info, names[n]) {
        at := at + [n];
      }
    }
  }

  lemma {:induction false} ItemsDescribe(mapper: RESTMapper, values: Values, namespace: string, selector: Selector,
                                         info: CustomMetricInfo, names: seq<string>)
    requires MetricsOfNames(mapper, values, namespace, selector, info, names).Ok?
    ensures var items := MetricsOfNames(mapper, values, namespace, selector, info, names).value;
            var found := WithValue(mapper, values, namespace, info, names);
            |items| == |found|
            && forall k :: 0 <= k < |found| ==>
                 Describes(mapper, values, NamespacedName(namespace, found[k]), selector, info, items[k])
  {
    hide ValueFor, MetricFor, Describes;
    if names != [] {
      WithValueFirst(mapper, values, namespace, info, names);
      ItemsDescribe(mapper, values, namespace, selector, info, names[1..]);
      var value := ValueFor(mapper, values, info, NamespacedName(namespace, names[0]));
      if value.Ok? {
        MetricForDescribes(mapper, values, NamespacedName(namespace, names[0]), selector, info, value.value);
      }
    }
  }

  /** A successful selector query gives one item for each listed name that has a value, in the order of the list, and
      each says what is stored for its object. */
  lemma ItemsOfNames(mapper: RESTMapper, values: Values, namespace: string, selector: Selector,
                     info: CustomMetricInfo, names: seq<string>) returns (at: seq<nat>)
    requires MetricsOfNames(mapper, values, namespace, selector, info, names).Ok?
    ensures Positions(mapper, values, namespace, info, names, at)
    ensures var items := MetricsOfNames(mapper, values, namespace, selector, info, names).value;
            |items| == |at|
            && forall k :: 0 <= k < |at| ==>
                 at[k] < |names|
                 && Describes(mapper, values, NamespacedName(namespace, names[at[k]]), selector, info, items[k])
  {
    hide Describes, MetricsOfNames, WithValue, Positions;
    at := WithValuePositions(mapper, values, namespace, info, names);
    ItemsDescribe(mapper, values, namespace, selector, info, names);
  }

  /** With the resource and its kind known and a selector that parses, a selector query fails only if listing does. */
  lemma {:induction false} NamesSucceed(mapper: RESTMapper, values: Values, namespace: string, selector: Selector,
                                        info: CustomMetricInfo, names: seq<string>)
    requires Resolves(mapper, info.groupResource) && mapper.KindFor(info.groupResource.WithVersion("")).Ok?
    requires selector.text == "" || selector.parsed.Ok?
    ensures MetricsOfNames(mapper, values, namespace, selector, info, names).Ok?
  {
    if names != [] {
      NormalizedMeaning(info, mapper);
      NamesSucceed(mapper, values, namespace, selector, info, names[1..]);
    }
  }
}
