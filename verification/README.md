# Custom metrics adapter: a verified model

This project models the stateful core of the custom metrics API server and proves what it keeps over every input,
every history of writes and every interleaving of threads.

- **The metric store** (`MetricInfo`, `Helpers`, `MetricStore`, `StoreHistory`, `WildcardQueries`, `TestingProvider`).
  The testing provider keeps a map from (normalised metric, namespaced object name) to a value. A write puts a value
  under the key its REST mapper yields at that moment, and goes on after a normalisation error with whatever was
  rewritten so far. The REST mapper is an oracle, four partial functions about which nothing is assumed. Each law is
  stated for all mappers, and where it needs something of the mapper, that need is shown to be exact.
- **The HTTP grammars** (`CustomMetricsRest`, `UrlRoundTrip`, `PathReads`, `ResourceLister`). Writes come in through
  three routes of the test adapter, reads through the API server's request parsing and `REST.List`; discovery
  advertises names that clients turn back into resource and metric.
- **Concurrency** (`RwLock`, `ProviderProgram`, `ProviderSystem`, `ProviderRuns`, `ProviderTheorems`,
  `ProviderProgress`, `InstallOrder`, `FetchedMappings`, `DynamicMapper`). Any number of provider operations run under
  `valuesLock`; every mapper lookup among them takes the mapper's own `mu` for reading; any number of refreshers fetch
  outside `mu` and swap the mappings inside it. The lock is Go's: an announced writer blocks later readers, and
  unlocking admits the blocked readers before the next writer. An operation is a program of atomic actions, so
  mappings may change between two lookups of one call.
- **The fake discovery client** (`FakeDiscovery`, `DiscoveryGroups`). Grouping of resource lists by API group, with
  one shared set that is drained while a map is iterated in arbitrary order.
- **The adapter base** (`AdapterState`, `AdapterBase`, `AdapterRuns`, `AdapterHistory`). Lazily constructed, cached
  building blocks whose constructors can fail at any time, under arbitrary sequences of calls and field assignments.
  The class is tied method by method to functions on its state; the laws are about those functions.

`Results`, `Text` and `Schema` hold the small vocabulary the others share.

Inputs that come from outside are parameters: mapper answers, the cluster's answers to list calls, the outcome of
decoding a body, label selectors (what they match, their text, and what parsing the text yields), the outcome of each
fetch, of each construction and of each run of a server.

## Where code and documentation part

The model follows the code. These are the places where the two disagree, each with the exact condition proved.

- The write routes are described as identical to the read routes (`test-adapter/provider/provider.go:121`). A path
  reads back exactly under the condition `UrlRoundTrip.ReadsBack`. It excludes the whole namespace-describing route:
  its writes are keyed as namespaced, its reads are not, so that such a read finds only what was written at the root
  under another name of namespaces. It also excludes resources called `metrics` in a namespace, `namespaces`, `proxy`
  or `watch` at the root, and, but for one coincidence, `status` and `finalize` in a namespace, all of which the
  request parser or `REST.List` takes for something else.
- A selector query and the by-name queries of the listed objects differ exactly when the mapper resolves the resource
  but answers for its kind with an error the API machinery classifies as not found: by name that is one more missing
  metric, in a selector query it fails the list. The mapper the adapter builds never does so, since its misses
  (`vendor/k8s.io/apimachinery/pkg/api/meta/multirestmapper.go:117`) are not API statuses; with it the two always
  agree.
- A write whose normalisation failed is logged as an error, yet stored. It stays invisible in all histories exactly
  when the mapper knows the resource names it hands out itself.
- What discovery lists can be read back exactly when normalising twice is the same as normalising once.
- Fetched mappings are installed in fetch order exactly when at most one thread refreshes.
- The adapter's methods other than `Run` are described as idempotent (`pkg/cmd/builder.go:47-48`). A call made twice
  leaves the adapter, and answers, as the call made once exactly when no construction on its way fails and then works
  when tried again: a failure is not kept, so the second call goes on from where the first one stopped.
- `Flags` loses the required flags exactly when the flag set assigned last is not the one in place when they were
  installed.
- Unsetting the embedded options after installing the flags makes `Config`, `Server` and `Run` panic until a
  configuration is cached.

## Model

| member | source | states |
|---|---|---|
| `MetricInfo.NormalizedMeaning` | pkg/provider/interfaces.go:51-68 | Normalisation succeeds exactly when both lookups do; it then gives the normal form and its singular; a failure gives the error of the lookup that failed, with the group-resource rewritten if that was the second; scope and metric name are never touched. |
| `Schema.ParseInvertsToStringExactly` | vendor/k8s.io/apimachinery/pkg/runtime/schema/group_version.go:69-92 | A group-resource survives being written out and parsed exactly when its resource has no dot. |
| `Schema.ParseGroupVersionMeaning` | vendor/k8s.io/apimachinery/pkg/runtime/schema/group_version.go:213-231 | "group/version" is read back as its two parts, and a text without a slash as a version of the unnamed group. |
| `Schema.ParseGroupVersionFailsExactly` | vendor/k8s.io/apimachinery/pkg/runtime/schema/group_version.go:222-230 | Parsing a group-version fails exactly when two of its characters are slashes. |
| `Helpers.ListObjectNames` | pkg/provider/helpers/helpers.go:73-106 | The names of the listed objects, in order; every failure of resolving, listing or decoding is returned; the namespace scopes the call only for namespaced metrics. |
| `TestingProvider.Provider.constructor` | test-adapter/provider/provider.go:110-118 | A new provider holds the outcome of the empty history of writes. |
| `TestingProvider.Provider.UpdateMetric` | test-adapter/provider/provider.go:144-186 | If the map is the outcome of a history of writes, it becomes that of the history and this write; only an undecodable body is refused, and a refused write changes nothing. |
| `MetricStore.ReplayGrows` | test-adapter/provider/provider.go:157-185 | One more write in a history is refused or replaces what its key held, and nothing else. |
| `StoreHistory.KeyHoldsLatest` | test-adapter/provider/provider.go:144-186 | A key is present exactly when an accepted write was made to it, and holds the value of the latest. |
| `StoreHistory.SomeWriteIsLatest` | test-adapter/provider/provider.go:144-186 | A key has a latest write exactly when it has a write. |
| `StoreHistory.LastWriteWins` | test-adapter/provider/provider.go:144-205 | A lookup answers with the latest accepted write stored under the query's normal form, whatever name of the resource was used and whatever the mapper answered to earlier writes; not-found exactly when there is none; the mapper's error when the query does not normalise. |
| `StoreHistory.ErasureAgrees` | test-adapter/provider/provider.go:172-205 | If the mapper knows its normal forms, erasing all writes that failed to normalise (at either lookup) changes no lookup after any history. |
| `StoreHistory.FailedWritesInvisibleExactly` | test-adapter/provider/provider.go:172-205 | Failed writes are invisible in all histories exactly under mappers that resolve every undotted normal form they hand out. |
| `StoreHistory.VisibleFailedWrite` | test-adapter/provider/provider.go:172-185 | The failing family: one failed write under a normal form the mapper does not know is read through the resource's other name. |
| `StoreHistory.FailedKeyUnreadable` | test-adapter/provider/provider.go:172-205 | A failed write's key is never one that a lookup asks for, under the same condition. |
| `StoreHistory.ListedIsReadableExactly` | test-adapter/provider/provider.go:189-205 | Every listed metric that normalises has an object with a readable value, in all histories, exactly under mappers whose normal forms are stable. |
| `StoreHistory.StoredKeyIsRead` | test-adapter/provider/provider.go:189-205 | Under such mappers each stored key whose resource resolves is found by a lookup for itself. |
| `StoreHistory.ListedButUnreadable` | test-adapter/provider/provider.go:189-205 | The failing family: an unstable normal form is listed and has no readable value for any object. |
| `StoreHistory.ListingGrows` | test-adapter/provider/provider.go:282-299 | The set of listed metrics never shrinks along a history, under any mapper answers. |
| `StoreHistory.ListedExactly` | test-adapter/provider/provider.go:286-298 | A metric is listed exactly when an accepted write stored a value under it. |
| `StoreHistory.ListedForEver` | test-adapter/provider/provider.go:185-298 | After an accepted write the metric it stored is listed after any further writes. |
| `StoreHistory.AliasesInterchangeableExactly` | pkg/provider/interfaces.go:51-60 | Two names of resources give the same answers over all stores and objects exactly when the mapper resolves them, asked without a version, to the same group and resource, and scope and metric agree. |
| `TestingProvider.Provider.MetricsFor` | test-adapter/provider/provider.go:235-262 | The values of the listed names in list order, not-found names skipped, the first other error returned. |
| `TestingProvider.Provider.GetMetricByName` | test-adapter/provider/provider.go:264-273 | The value under the normalised key with the object's reference, without a selector, or the first error. |
| `TestingProvider.Provider.GetMetricBySelector` | test-adapter/provider/provider.go:275-280 | The answer of the selector query on the current map. |
| `WildcardQueries.SelectorIsByNameExactly` | test-adapter/provider/provider.go:235-280 | Over every store and cluster, a selector query equals asking by name for each listed object, skipping exactly the not-found ones and failing with the first other error, unless the kind is reported as not found; then it does not. |
| `WildcardQueries.NamesAgree` | test-adapter/provider/provider.go:241-262 | The loop over names agrees with the by-name reference on every list of names. |
| `WildcardQueries.KindFailsTheList` | test-adapter/provider/provider.go:252-255 | The failing family: a not-found kind fails the list although by name it counts as a missing metric. |
| `WildcardQueries.OneListCallDecides` | pkg/provider/helpers/helpers.go:73-89 | A selector query depends on the cluster only through one list call: of the first resource offered, in the query's namespace exactly if the metric is namespaced, with the selector's text. |
| `WildcardQueries.NamesAreTheListed` | pkg/provider/helpers/helpers.go:38-106 | The names asked for are those of the objects listed by that call, in order; an unknown resource, a failed call, and an answer that is no list or cannot be decoded fail the query. |
| `WildcardQueries.ItemsOfNames` | test-adapter/provider/provider.go:235-262 | A successful selector query has one item for each listed name with a value, in list order, and each is the object's value with its reference and the parsed selector. |
| `WildcardQueries.NamesSucceed` | test-adapter/provider/provider.go:235-262 | With resource and kind known and a selector that parses, nothing but the listing can fail a selector query. |
| `WildcardQueries.MetricForDescribes` | test-adapter/provider/provider.go:207-232 | An item names the kind's group and version, the kind, the object and the metric, and carries the parsed selector unless the selector is empty; it exists exactly when the kind is known and the selector parses. |
| `WildcardQueries.ByNameDescribes` | test-adapter/provider/provider.go:264-273 | The item of a by-name query is the stored value with that description, without a selector. |
| `TestingProvider.Provider.ListAllMetrics` | test-adapter/provider/provider.go:282-299 | No duplicates, and as a set exactly the metrics of the stored keys, in any order of iteration. |
| `TestingProvider.Provider.GetExternalMetric` | test-adapter/provider/provider.go:301-317 | The stored external metrics with this name whose labels match, in stored order. |
| `TestingProvider.ConjunctionFiltersTwice` | test-adapter/provider/provider.go:306-313 | Filtering by a conjunction of selectors is filtering twice. |
| `TestingProvider.SelectorFiltersEverything` | test-adapter/provider/provider.go:306-313 | The answers to a selector are those to the all-matching query which the selector accepts. |
| `TestingProvider.MatchingMeaning` | test-adapter/provider/provider.go:305-316 | The answer holds exactly the stored metrics of the name asked for whose labels match, each as often as stored and in stored order. |
| `TestingProvider.EverythingMatchesByName` | test-adapter/provider/provider.go:305-316 | For the all-matching selector only the name decides. |
| `CustomMetricsRest.REST.List` | pkg/registry/custom_metrics/reststorage.go:60-127 | The answer to the one query the request's namespace, name and path amount to; a request without parsed path information is an error. |
| `UrlRoundTrip.InfoOfPath` | vendor/k8s.io/apiserver/pkg/endpoints/request/requestinfo.go:152-206 | What the request parser makes of each of the three shapes of path, including the special verbs and namespace subresources. |
| `UrlRoundTrip.SpecialVerbs` | vendor/k8s.io/apiserver/pkg/endpoints/request/requestinfo.go:152-206 | A special verb alone does not parse; otherwise it is skipped, and "proxy" leaves no subresource. |
| `UrlRoundTrip.ByNameFinds` | test-adapter/provider/provider.go:188-232 | A by-name query succeeds exactly when resource and kind are known and the normal form's key is stored; the item describes the object asked for. |
| `UrlRoundTrip.ReadHits` | pkg/registry/custom_metrics/reststorage.go:60-119 | While the written key holds a value, a readable path yields one item with it, for the object and metric of the path. |
| `UrlRoundTrip.ReadMisses` | pkg/registry/custom_metrics/reststorage.go:84-104 | A path outside the condition does not read back a write into an empty store. |
| `UrlRoundTrip.OneObjectMisses` | pkg/registry/custom_metrics/reststorage.go:90-114 | On such a path a read for the same object and metric looks under a key other than the written one. |
| `UrlRoundTrip.ReadsBackExactly` | test-adapter/provider/provider.go:120-186 | A written path reads back, over all earlier stores, clusters, values and selectors, exactly when no segment has a second meaning to the reader and the mapper knows the resource and its kind. |
| `UrlRoundTrip.ReadsBackLater` | test-adapter/provider/provider.go:144-205 | Writes to other keys in between, under any mapper answers, do not change what a path reads back. |
| `UrlRoundTrip.NamespaceReadsSkipNamespaceWrites` | test-adapter/provider/provider.go:149-153 | A namespace-describing read finds nothing in a store written only through resource type "namespaces". |
| `PathReads.NamespaceReadExactly` | pkg/registry/custom_metrics/reststorage.go:89-114 | A namespace-describing read succeeds exactly when namespaces and their kind are known and a value is stored for the namespace under the metric of the path, not namespaced and in no namespace; it gives that one value. |
| `PathReads.NamespaceAliasExactly` | pkg/registry/custom_metrics/reststorage.go:89-97 | A root-scoped write is always read back as describing a namespace exactly when its resource type is another name that the mapper resolves to the normal form of namespaces. |
| `PathReads.WildcardReads` | pkg/registry/custom_metrics/reststorage.go:98-127 | Reading a path with "*" for the name is the selector query for its namespace, resource and metric, with the request's selector. |
| `PathReads.WildcardReadsNamespaces` | pkg/registry/custom_metrics/reststorage.go:89-101 | Reading a metric of namespace "*" is the selector query over all namespaces. |
| `PathReads.NamelessReads` | pkg/registry/custom_metrics/reststorage.go:67-101 | A request without an object name asks for all objects; with resource "metrics" it asks for the metric "*" of the namespace. |
| `PathReads.WildcardFindsWritten` | pkg/registry/custom_metrics/reststorage.go:98-127 | A written value is among the items of the path with "*" when the one list call holds its object and the selector parses. |
| `ResourceLister.CustomMetricsResourceLister.ListAPIResources` | pkg/provider/resource_lister.go:39-53 | One read-only resource for each stored metric and none twice, named resource/metric, with the metric's scope. |
| `ResourceLister.AdvertisedNameReadsBackExactly` | pkg/provider/resource_lister.go:43-47 | Splitting an advertised name at its first slash and parsing the left part recovers resource and metric exactly when the resource has neither dot nor slash and the group no slash. |
| `ResourceLister.AdvertisedApart` | pkg/provider/resource_lister.go:43-50 | Two metrics of such resources with the same advertised name and scope are the same metric. |
| `ResourceLister.UnreadableNamesCollide` | pkg/provider/resource_lister.go:45 | Two different resources of the other kind can be advertised under one name. |
| `ResourceLister.StoredIsReadable` | test-adapter/provider/provider.go:164-185 | Only resources whose names read back are ever stored from path segments, if the mapper resolves such names to such names. |
| `ResourceLister.AdvertisedNamesUnambiguous` | pkg/provider/resource_lister.go:39-53 | After any history through path segments, with such mappers, the advertised (name, namespaced) pairs are distinct and each leads back to its metric. |
| `FakeDiscovery.Client.ServerResourcesForGroupVersion` | pkg/dynamicmapper/fake_discovery.go:41-53 | The first resource list with the group-version, or an error. |
| `FakeDiscovery.Client.CollectGroups` | pkg/dynamicmapper/fake_discovery.go:72-99 | The first pass gathers each group's versions in input order and the set of all of them, or fails at the first group-version that does not parse. |
| `FakeDiscovery.Client.TakeVersions` | pkg/dynamicmapper/fake_discovery.go:108-113 | Draining takes a group's distinct versions in first-occurrence order and removes exactly these from the shared set. |
| `FakeDiscovery.DrainStep` | pkg/dynamicmapper/fake_discovery.go:102-116 | Draining one group leaves every other group's versions in the shared set. |
| `FakeDiscovery.Client.ServerGroups` | pkg/dynamicmapper/fake_discovery.go:72-121 | Fails exactly when some group-version has two or more slashes; otherwise one group per distinct name, with its distinct versions in first-occurrence order and the first as preferred, in whatever order the map is iterated; the shared set ends empty. |
| `DiscoveryGroups.DistinctPicksFirsts` | pkg/dynamicmapper/fake_discovery.go:108-113 | Deduplication keeps exactly the first occurrences, in the order of their positions. |
| `DiscoveryGroups.DistinctMeaning` | pkg/dynamicmapper/fake_discovery.go:108-113 | Deduplication loses nothing and repeats nothing. |
| `DiscoveryGroups.IterationOrderIsHarmless` | pkg/dynamicmapper/fake_discovery.go:101-116 | Two answers for the same input hold the same groups, up to their order. |
| `DiscoveryGroups.LookupFindsFirst` | pkg/dynamicmapper/fake_discovery.go:47-52 | A group-version is found exactly when some list has it, and then the first such list. |
| `DiscoveryGroups.EachGroupVersionOnce` | pkg/dynamicmapper/fake_discovery.go:72-121 | Every input group-version has exactly one place in the answer, in the group of its name. |
| `DiscoveryGroups.ListedVersionsAreServed` | pkg/dynamicmapper/fake_discovery.go:41-121 | Every listed version resolves to the first resource list with its group-version; the preferred version is the first listed. |
| `DiscoveryGroups.PreferredIsFirstGiven` | pkg/dynamicmapper/fake_discovery.go:85-93 | A group's preferred version is that of the first input list of the group. |
| `DiscoveryGroups.VersionsInGivenOrder` | pkg/dynamicmapper/fake_discovery.go:95-113 | A group lists its versions in the order in which the input first gives them. |
| `DiscoveryGroups.GroupsByPrefix` | pkg/dynamicmapper/fake_discovery.go:75-83 | A list belongs to the group before the slash of its group-version, or to the unnamed one, with the version after it. |
| `DynamicMapper.RegeneratingDiscoveryRESTMapper.NewRESTMapper` | pkg/dynamicmapper/mapper.go:31-41 | There is a mapper exactly when the first fetch succeeds, and it starts with what was fetched. |
| `DynamicMapper.RegeneratingDiscoveryRESTMapper.RegenerateMappings` | pkg/dynamicmapper/mapper.go:52-65 | A successful fetch replaces the mappings; a failed one is returned and leaves them. |
| `DynamicMapper.RegeneratingDiscoveryRESTMapper.RunUntil` | pkg/dynamicmapper/mapper.go:43-50 | After any number of rounds the mappings are the newest successfully fetched ones. |
| `DynamicMapper.LatestFetchedMeaning` | pkg/dynamicmapper/mapper.go:43-65 | The mappings in use came with a successful fetch after which all failed, or are the first ones if all failed. |
| `RwLock.AgreesUses` | test-adapter/provider/provider.go:104 | Every proper use of the lock keeps its state in agreement with what each thread is doing. |
| `RwLock.SomebodyMoves` | test-adapter/provider/provider.go:104 | A lock in use always lets one of its users go on. |
| `RwLock.AnnouncedIsNotOvertaken` | pkg/dynamicmapper/mapper.go:59-61 | Until an announced writer has come and gone nobody joins the readers it waits for; when it has, all who waited are admitted. |
| `ProviderProgram.DoKeepsHeading` | test-adapter/provider/provider.go:144-299 | With fixed mapper answers, no atomic action of any operation changes the reply it is heading for. |
| `ProviderProgram.ExecuteIsSequential` | test-adapter/provider/provider.go:144-299 | An operation run action by action under fixed mapper answers replies what the sequential operation replies. |
| `ProviderProgram.ExecuteStores` | test-adapter/provider/provider.go:157-185 | A write stores under the key its first lookup decides, whatever the mapper answers to the second. |
| `ProviderProgram.ReadsNeverStore` | test-adapter/provider/provider.go:188-299 | No operation but a write ever reaches the storing action. |
| `ProviderProgram.ReadsReturnStored` | test-adapter/provider/provider.go:188-280 | Under arbitrarily changing mapper answers, every item of a successful read has the query's metric and namespace and a value stored for its object under a normal form that one of the answers gives. |
| `ProviderSystem.LocksAgreeStep` | pkg/dynamicmapper/mapper.go:52-113 | Every step of every operation and refresher uses both locks properly. |
| `ProviderRuns.InvariantStep` | test-adapter/provider/provider.go:144-299 | One step of any thread keeps the whole invariant: locks, store as fold of the commits, commit authorship, and each thread's progress as an execution over one map. |
| `ProviderRuns.InvariantAfter` | test-adapter/provider/provider.go:144-299 | The invariant holds in every reachable state. |
| `ProviderTheorems.WritersExclude` | test-adapter/provider/provider.go:145-146 | While a write is under way no other operation holds the lock; while mappings are replaced no lookup and no other replacement is under way. |
| `ProviderTheorems.FinishedAtOneMoment` | test-adapter/provider/provider.go:144-299 | In every interleaving a finished operation worked on one map, the fold of exactly the writes committed before a moment inside its call; its lookups saw non-decreasing generations of mappings, all current during the call. |
| `ProviderTheorems.FinishedIsSequential` | test-adapter/provider/provider.go:144-299 | If no mappings are installed during it, its reply is the sequential operation's on that map. |
| `ProviderTheorems.ValuesAreAHistory` | test-adapter/provider/provider.go:144-186 | The map is at all times the outcome of a sequential history of the committed writes. |
| `ProviderTheorems.CommittedExactlyOnce` | test-adapter/provider/provider.go:157-185 | An accepted write is committed exactly once, after its call was made and before it returned; a refused one never; a read never. |
| `ProviderTheorems.RealTimeOrder` | test-adapter/provider/provider.go:144-299 | If one operation has finished before another is called, its moment is not after the other's, and if it was an accepted write the other works on a map that includes its commit. |
| `ProviderTheorems.FinishedReadsStored` | test-adapter/provider/provider.go:188-280 | Even with mappings installed during a by-name or selector read, each value returned is one stored at the read's moment for that object, under the query's metric and scope and the normal form of mappings current during the read. |
| `ProviderTheorems.ConcurrentLastWriteWins` | test-adapter/provider/provider.go:144-273 | A concurrent by-name read during which no mappings are installed answers with the latest of the writes committed before its moment, or that there is none. |
| `ProviderProgress.SomethingMoves` | test-adapter/provider/provider.go:145-284 | In every state where the locks agree with the threads and one of them is unfinished, some thread can take a step. |
| `ProviderProgress.DeadlockFree` | pkg/dynamicmapper/mapper.go:52-113 | No reachable state with an unfinished operation or refresher is a deadlock, with the mapper's lock nested in the provider's. |
| `ProviderProgress.StepProgresses` | test-adapter/provider/provider.go:144-299 | Every step brings the system closer to its end in a well-founded order. |
| `ProviderProgress.NoEndlessRun` | test-adapter/provider/provider.go:144-299 | There is no infinite run of finitely many operations and refresh rounds. |
| `ProviderProgress.CanFinish` | test-adapter/provider/provider.go:144-299 | From every reachable state some run brings every thread to its end. |
| `InstallOrder.InOrderExactly` | pkg/dynamicmapper/mapper.go:52-65 | Mappings are installed in fetch order in every run exactly when at most one thread refreshes. |
| `InstallOrder.OrderedStep` | pkg/dynamicmapper/mapper.go:52-65 | With one refresher, what it has in hand stays newer than everything installed. |
| `InstallOrder.StaleRun` | pkg/dynamicmapper/mapper.go:53-62 | The failing family: any two refreshers have a run that installs the older fetch last. |
| `FetchedMappings.InstalledAsFetched` | pkg/dynamicmapper/mapper.go:52-62 | In every reachable state everything installed or about to be is what the fetch of its number brought, so the mappings in use come from some successful fetch. |
| `FetchedMappings.NewestInUse` | pkg/dynamicmapper/mapper.go:44-62 | With a single refresher that has nothing in hand, the mappings in use are those of the newest successful fetch of the run. |
| `AdapterBase.Base.constructor` | pkg/cmd/builder.go:51-83 | A new adapter has nothing set, cached or installed. |
| `AdapterBase.Base.InstallFlags` | pkg/cmd/builder.go:85-112 | The flags are added once, to the flag set of that moment; options are supplied if missing. |
| `AdapterBase.Base.Flags` | pkg/cmd/builder.go:114-122 | The flag set in place, after installing the flags if that has not happened. |
| `AdapterBase.Base.ClientConfig` | pkg/cmd/builder.go:124-146 | The cached configuration, or a newly built one that is cached if building succeeds. |
| `AdapterBase.Base.DiscoveryClient` | pkg/cmd/builder.go:148-163 | Likewise, built from the cached client configuration. |
| `AdapterBase.Base.RESTMapper` | pkg/cmd/builder.go:165-183 | Likewise, built from the cached discovery client. |
| `AdapterBase.Base.DynamicClient` | pkg/cmd/builder.go:185-200 | Likewise, built from the cached client configuration. |
| `AdapterBase.Base.Informers` | pkg/cmd/builder.go:257-273 | Likewise, built from a new client of the cached client configuration. |
| `AdapterBase.Base.Config` | pkg/cmd/builder.go:212-228 | Likewise, built from the options after installing the flags; a nil dereference if the options are gone. |
| `AdapterBase.Base.Server` | pkg/cmd/builder.go:230-255 | Likewise, built from the server configuration, the name, the providers and whatever informers are cached. |
| `AdapterBase.Base.Run` | pkg/cmd/builder.go:275-283 | Runs what `Server` gives and returns the outcome of running it, or returns the error of `Server`. |
| `AdapterRuns.ApplyGrows` | pkg/cmd/builder.go:85-283 | No call loses or replaces anything cached, successful or not, and every call keeps the wiring and the construction counts. |
| `AdapterRuns.AlwaysSound` | pkg/cmd/builder.go:124-273 | In every state a new adapter can reach: what is cached was built from what is cached, each constructor has succeeded once if its object is cached and otherwise never, and the flags were added to at most one flag set. |
| `AdapterRuns.SameObjectForever` | pkg/cmd/builder.go:47-50 | After its first success a getter returns the same object and changes nothing, whatever is called or assigned in between. |
| `AdapterRuns.IdempotentExactly` | pkg/cmd/builder.go:47-50 | Any call but `Run`, made twice, leaves the same fields and gives the same result as made once, exactly when the first construction to fail on its way (if any) fails again, or the call panics; which constructions are on its way is read off the fields before the call. |
| `AdapterRuns.RetriedFromNew` | pkg/cmd/builder.go:128-146 | The failing family from a new adapter: building the client configuration fails once, then works. |
| `AdapterRuns.RunIsNotIdempotent` | pkg/cmd/builder.go:275-283 | Two calls of `Run` are never the same as one when the server can be had. |
| `AdapterRuns.ServerCements` | pkg/cmd/builder.go:230-255 | Every `Server` and `Run` after the first successful `Server` uses the name, providers, informers and configuration of that moment. |
| `AdapterRuns.ConfigCementsOptionsOnly` | pkg/cmd/builder.go:212-228 | `Config` fixes the configuration only: providers and informers set between it and `Server` still count. |
| `AdapterRuns.PanicsExactly` | pkg/cmd/builder.go:216-228 | A call panics exactly when it needs a configuration, none is cached, and the options were unset after the flags were installed; it goes on panicking. |
| `AdapterRuns.PanicFromNew` | pkg/cmd/builder.go:86-91 | The shortest run from a new adapter to a panic: `Flags`, unset the options, `Config`. |
| `AdapterRuns.NoPanic` | pkg/cmd/builder.go:85-104 | No sequence of calls on a new adapter panics unless it unsets the options. |
| `AdapterRuns.InPlaceAfter` | pkg/cmd/builder.go:106-122 | After any calls the flag set in place is the one assigned last, or the one of before if none was. |
| `AdapterRuns.FlagsAreLostExactly` | pkg/cmd/builder.go:85-122 | A later `Flags` returns the flag set assigned last; the required flags stay on the one in place when they were first installed, so they are missing exactly when the calls in between end with another one assigned. |
| `AdapterRuns.FlagsLostFromNew` | pkg/cmd/builder.go:85-122 | The failing run from a new adapter: `Flags`, then another flag set assigned. |
| `AdapterRuns.ServingBuildsNoClients` | pkg/cmd/builder.go:245-247 | Running the server constructs no client, mapper or informers. |
| `AdapterHistory.RunServes` | pkg/cmd/builder.go:275-283 | `Run` runs the server whenever `Server` has one, the first time too, and answers with the outcome of that run; otherwise nothing runs and the error is that of `Server`. |
| `AdapterHistory.EveryRunServes` | pkg/cmd/builder.go:275-283 | Over any calls on a new adapter the server has run once for each `Run` at which it could be had, always the same one. |
| `AdapterHistory.BuiltFromFields` | pkg/cmd/builder.go:88-228 | A newly built client configuration, mapper and server configuration carry the kubeconfig file, the discovery interval, and the user's or default options of the moment of the call. |
| `AdapterHistory.SettingsAfter` | pkg/cmd/builder.go:85-228 | After any calls the kubeconfig file, interval, options and providers are those assigned last; no getter changes them, and installing flags keeps options a user set. |
| `AdapterHistory.BuiltFromLastAssigned` | pkg/cmd/builder.go:85-255 | After any calls on a new adapter, what a call newly builds carries the settings and providers assigned last. |

## Left out

- TestingProvider.Provider.UpdateMetric: like the other methods of the sequential class, does not model a mapper that changes within a call; it answers both lookups of one call from one mapper and takes no lock; mappings that change within a call, and the locks, are modelled in `ProviderSystem`.
- DynamicMapper.RegeneratingDiscoveryRESTMapper.RunUntil: models the refresher as a loop over a finite list of fetch outcomes; the timer and the stop channel are left out.
- ProviderProgress.NoEndlessRun: like `CanFinish`, counts a finite number of rounds for each refresher; fairness towards an operation while refreshers go on forever is not claimed, since it would need a fair scheduler.
- ProviderTheorems.FinishedIsSequential: like `ConcurrentLastWriteWins`, is about operations during which no mappings are installed; with an installation in between the two lookups of one normalisation can disagree, and `FinishedAtOneMoment` and `FinishedReadsStored` say what still holds.
- UrlRoundTrip.ReadsBackExactly: is about requests without a field selector in the query string, and about paths below the service's prefix; the shapes of the three read routes (`pkg/apiserver/installer/cmhandlers.go:77-89`) are taken from there, their registration is not modelled.
- TestingProvider.Provider.GetExternalMetric: leaves timestamps out; its namespace parameter is unused, as in the source. It is not among the operations of the concurrent model, because the list of external metrics never changes.
- AdapterBase.Base.RESTMapper: does not start the refresher, as in the source; refreshers are an environment of the concurrent model.
- DynamicMapper.RegeneratingDiscoveryRESTMapper.RegenerateMappings: takes the outcome of one fetch as a parameter; how a partly failed discovery is turned into mappings is the business of a library.
- HTTP serving, route registration, content negotiation and API group installation (`pkg/apiserver`).
- The external metrics storage and its resource lister: single-branch code.
- Error texts, timestamps, and the arithmetic of quantities.
- Label selector syntax: a selector is what it matches, its text, and what parsing the text yields.
- Internals of the client library's mapper, discovery and dynamic clients, and of flag, TLS and authorization options.
- What the fake discovery client records of a call beyond its verb, the reactors it can be given, and its methods without behaviour.
