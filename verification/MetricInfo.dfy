/** Metric descriptions and their normalisation through a REST mapper. */
module MetricInfo {
  import opened Results
  import opened Schema

  datatype Error =
    | MetricNotFound(resource: GroupResource, metric: string, name: string)
    | ApiNotFound(message: string)
    | Failure(message: string)
  {
    /** Whether the API machinery classifies the error as a "not found" status. */
    predicate IsNotFound() {
      MetricNotFound? || ApiNotFound?
    }
  }

  type Outcome<+T> = Result<T, Error>

  /** The answers a REST mapper gives at one moment: four partial functions, about which nothing is assumed. */
  datatype RESTMapper = RESTMapper(
    ResourceFor: GroupVersionResource -> Outcome<GroupVersionResource>,
    ResourceSingularizer: string -> Outcome<string>,
    KindFor: GroupVersionResource -> Outcome<GroupVersionKind>,
    ResourcesFor: GroupVersionResource -> Outcome<seq<GroupVersionResource>>)

  datatype CustomMetricInfo = CustomMetricInfo(groupResource: GroupResource, namespaced: bool, metric: string)

  /** What `Normalized` returns: the info is partly rewritten when the second lookup fails. */
  datatype Normalization = Normalization(info: CustomMetricInfo, singular: string, err: Option<Error>)

  function Normalized(info: CustomMetricInfo, mapper: RESTMapper): Normalization {
    match mapper.ResourceFor(info.groupResource.WithVersion(""))
    case Err(e) => Normalization(info, "", Some(e))
    case Ok(gvr) =>
      var info' := info.(groupResource := gvr.ToGroupResource());
      match mapper.ResourceSingularizer(info'.groupResource.resource)
      case Err(e) => Normalization(info', "", Some(e))
      case Ok(singular) => Normalization(info', singular, None)
  }

  // ----- what a mapper does to bare group-resources -----

  predicate Resolves(mapper: RESTMapper, gr: GroupResource) {
    && mapper.ResourceFor(gr.WithVersion("")).Ok?
    && mapper.ResourceSingularizer(NormalForm(mapper, gr).resource).Ok?
  }

  function NormalForm(mapper: RESTMapper, gr: GroupResource): GroupResource
    requires mapper.ResourceFor(gr.WithVersion("")).Ok?
  {
    mapper.ResourceFor(gr.WithVersion("")).value.ToGroupResource()
  }

  /** Normalisation succeeds exactly on resolvable group-resources, and changes nothing else. The error is that of the
      lookup that failed; after the first lookup the info stays rewritten whatever the second one answers. */
  lemma NormalizedMeaning(info: CustomMetricInfo, mapper: RESTMapper)
    ensures Normalized(info, mapper).err.None? <==> Resolves(mapper, info.groupResource)
    ensures Resolves(mapper, info.groupResource) ==>
              Normalized(info, mapper).info == info.(groupResource := NormalForm(mapper, info.groupResource))
    ensures var n := Normalized(info, mapper);
            var found := mapper.ResourceFor(GroupVersionResource(info.groupResource.group, "", info.groupResource.resource));
            && (found.Err? ==> n.info == info && n.singular == "" && n.err == Some(found.error))
            && (found.Ok? ==>
                  var singular := mapper.ResourceSingularizer(found.value.resource);
                  && n.info.groupResource.group == found.value.group
                  && n.info.groupResource.resource == found.value.resource
                  && (singular.Err? ==> n.singular == "" && n.err == Some(singular.error))
                  && (singular.Ok? ==> n.singular == singular.value && n.err == None))
    ensures Normalized(info, mapper).info.namespaced == info.namespaced
    ensures Normalized(info, mapper).info.metric == info.metric
  {
  }
}
