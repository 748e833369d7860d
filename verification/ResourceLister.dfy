/** Discovery of the stored metrics as API resources. */
module ResourceLister {
  import opened Results
  import opened Text
  import opened Schema
  import opened MetricInfo
  import opened MetricStore
  import opened StoreHistory
  import opened TestingProvider

  datatype APIResource = APIResource(name: string, namespaced: bool, kind: string, verbs: seq<string>)

  function AdvertisedName(info: CustomMetricInfo): string {
    info.groupResource.ToString() + "/" + info.metric
  }

  class CustomMetricsResourceLister {
    const provider: Provider

    constructor (provider: Provider)
      ensures this.provider == provider
    {
      this.provider := provider;
    }

    /** One resource for each stored info, and none twice; `listed` is the order the provider's map iteration chose. */
    method ListAPIResources() returns (resources: array<APIResource>, ghost listed: seq<CustomMetricInfo>)
      ensures fresh(resources) && resources.Length == |listed|
      ensures (set info <- listed) == Infos(provider.values)
      ensures forall i, j :: 0 <= i < j < |listed| ==> listed[i] != listed[j]
      ensures forall i :: 0 <= i < |listed| ==>
                resources[i] == APIResource(AdvertisedName(listed[i]), listed[i].namespaced, "MetricValueList", ["get"])
    {
      var metrics := provider.ListAllMetrics();
      listed := metrics;
      resources := new APIResource[|metrics|](_ => APIResource("", false, "", []));
      for i := 0 to |metrics|
        invariant forall k :: 0 <= k < i ==>
          resources[k] == APIResource(AdvertisedName(metrics[k]), metrics[k].namespaced, "MetricValueList", ["get"])
      {
        resources[i] := APIResource(metrics[i].groupResource.ToString() + "/" + metrics[i].metric,
                                    metrics[i].namespaced, "MetricValueList", ["get"]);
      }
    }
  }

  /** How a client reads an advertised name: the part before the first slash names the resource. */
  function ReadName(name: string): Option<(GroupResource, string)> {
    var i := IndexOf(name, '/');
    if i == -1 then None else Some((ParseGroupResource(name[..i]), name[i + 1..]))
  }

  /** Group-resources whose text is read back as what it is. */
  predicate Readable(gr: GroupResource) {
    '.' !in gr.resource && '/' !in gr.resource && '/' !in gr.group
  }

  /** An advertised name leads back to its resource and metric exactly when the resource has neither dot nor slash and
      the group no slash. */
  lemma AdvertisedNameReadsBackExactly(info: CustomMetricInfo)
    ensures ReadName(AdvertisedName(info)) == Some((info.groupResource, info.metric)) <==> Readable(info.groupResource)
  {
    var gr := info.groupResource;
    var text, name := gr.ToString(), AdvertisedName(info);
    assert name == text + ['/'] + info.metric;
    assert name[|text|] == '/';
    ParseInvertsToStringExactly(gr);
    if '/' !in text {
      SplitAtFirst(text, '/', info.metric);
    } else {
      var i := IndexOf(name, '/');
      EarlierSlash(text, name, i);
      ParseLosesNothing(name[..i]);
    }
  }

  lemma EarlierSlash(text: string, name: string, i: int)
    requires text <= name && '/' in text && i == IndexOf(name, '/')
    ensures 0 <= i < |text|
  {
    var k :| 0 <= k < |text| && text[k] == '/';
    assert name[k] == '/';
    assert forall j :: k < j <= |name| ==> name[..j][k] == '/';
  }

  /** Writing out a parsed name gives at most as many characters back. */
  lemma ParseLosesNothing(text: string)
    ensures |ParseGroupResource(text).ToString()| <= |text|
  {
  }

  /** Different infos with readable resources are advertised differently. */
  lemma AdvertisedApart(a: CustomMetricInfo, b: CustomMetricInfo)
    requires Readable(a.groupResource) && Readable(b.groupResource)
    requires AdvertisedName(a) == AdvertisedName(b) && a.namespaced == b.namespaced
    ensures a == b
  {
    AdvertisedNameReadsBackExactly(a);
    AdvertisedNameReadsBackExactly(b);
  }

  /** Without readability two different resources can share a name. */
  lemma UnreadableNamesCollide()
    ensures var a := CustomMetricInfo(GroupResource("", "a.b"), true, "m");
            var b := CustomMetricInfo(GroupResource("b", "a"), true, "m");
            a != b && AdvertisedName(a) == AdvertisedName(b)
  {
  }

  /** The mapper resolves path segments to readable resources only. */
  ghost predicate ResolvesReadably(mapper: RESTMapper) {
    forall gr :: Readable(gr) && mapper.ResourceFor(gr.WithVersion("")).Ok? ==> Readable(NormalForm(mapper, gr))
  }

  /** Whatever was written through path segments, the advertised (name, namespaced) pairs are distinct and each leads
      back to its metric. */
  lemma AdvertisedNamesUnambiguous(events: seq<WriteEvent>, a: CustomMetricInfo, b: CustomMetricInfo)
    requires forall e <- events :: '/' !in e.request.resourceType && ResolvesReadably(e.mapper)
    requires a in Infos(Replay(events)) && b in Infos(Replay(events))
    ensures AdvertisedName(a) == AdvertisedName(b) && a.namespaced == b.namespaced ==> a == b
    ensures ReadName(AdvertisedName(a)) == Some((a.groupResource, a.metric))
  {
    StoredIsReadable(events, a);
    StoredIsReadable(events, b);
    AdvertisedNameReadsBackExactly(a);
    if AdvertisedName(a) == AdvertisedName(b) && a.namespaced == b.namespaced {
      AdvertisedApart(a, b);
    }
  }

  lemma StoredIsReadable(events: seq<WriteEvent>, info: CustomMetricInfo)
    requires forall e <- events :: '/' !in e.request.resourceType && ResolvesReadably(e.mapper)
    requires info in Infos(Replay(events))
    ensures Readable(info.groupResource)
  {
    hide Replay;
    var key :| key in Replay(events) && key.info == info;
    KeyHoldsLatest(events, key);
    SomeWriteIsLatest(events, key);
    var e :| e in events && Writes(e, key);
    assert Readable(RawInfo(e.request).groupResource);
  }
}
