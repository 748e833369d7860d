/** Helpers for providers: resolving resources, describing objects and listing object names. */
module Helpers {
  import opened Results
  import opened Schema
  import opened MetricInfo

  datatype NamespacedName = NamespacedName(namespace: string, name: string)

  datatype ObjectReference = ObjectReference(apiVersion: string, kind: string, name: string, namespace: string)

  /** An unstructured object; only its name matters here. */
  datatype Object = Object(name: string)

  /** What a list call can answer with, besides failing. */
  datatype ListAnswer = NotAList | Items(items: seq<Object>) | Undecodable(error: Error)

  /** The dynamic client: resource, namespace (None for a cluster-wide list) and selector text to an answer. */
  type Client = (GroupVersionResource, Option<string>, string) -> Outcome<ListAnswer>

  function ResourceFor(mapper: RESTMapper, info: CustomMetricInfo): Outcome<GroupVersionResource> {
    match mapper.ResourcesFor(info.groupResource.WithVersion(""))
    case Err(e) => Err(Failure("unable to find preferred version to list matching resource names"))
    case Ok(all) =>
      if |all| == 0 then Err(Failure("unable to find preferred version to list matching resource names"))
      else Ok(all[0])
  }

  function ReferenceFor(mapper: RESTMapper, name: NamespacedName, info: CustomMetricInfo): Outcome<ObjectReference> {
    var kind :- mapper.KindFor(info.groupResource.WithVersion(""));
    Ok(ObjectReference(kind.group + "/" + kind.version, kind.kind, name.name, name.namespace))
  }

  function Names(items: seq<Object>): (names: seq<string>)
    ensures |names| == |items| && forall i :: 0 <= i < |items| ==> names[i] == items[i].name
  {
    seq(|items|, i requires 0 <= i < |items| => items[i].name)
  }

  /** The part of `ListObjectNames` after the resource is resolved. */
  function ListedNames(client: Client, namespace: string, selectorText: string, info: CustomMetricInfo,
                       resource: GroupVersionResource): Outcome<seq<string>> {
    var answer :- client(resource, if info.namespaced then Some(namespace) else None, selectorText);
    match answer
    case NotAList => Err(Failure("result of label selector list operation was not a list"))
    case Undecodable(e) => Err(e)
    case Items(items) => Ok(Names(items))
  }

  function ObjectNames(mapper: RESTMapper, client: Client, namespace: string, selectorText: string,
                       info: CustomMetricInfo): Outcome<seq<string>> {
    var resource :- ResourceFor(mapper, info);
    ListedNames(client, namespace, selectorText, info, resource)
  }

  method ListObjectNames(mapper: RESTMapper, client: Client, namespace: string, selectorText: string,
                         info: CustomMetricInfo)
    returns (r: Outcome<seq<string>>)
    ensures r == ObjectNames(mapper, client, namespace, selectorText, info)
  {
    var resource :- ResourceFor(mapper, info);
    var scope := if info.namespaced then Some(namespace) else None;
    var answer :- client(resource, scope, selectorText);
    match answer
    case NotAList =>
      return Err(Failure("result of label selector list operation was not a list"));
    case Undecodable(e) =>
      return Err(e);
    case Items(items) =>
      var names: seq<string> := [];
      for i := 0 to |items|
        invariant names == Names(items)[..i]
      {
        names := names + [items[i].name];
      }
      assert names == Names(items);
      return Ok(names);
  }
}
