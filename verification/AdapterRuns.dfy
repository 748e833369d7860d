/** Any sequence of calls on an adapter, with any constructions failing. */
module AdapterRuns {
  import opened Results
  import opened AdapterState

  datatype Call =
    // calls that get an object
    | ForClientConfig | ForDiscoveryClient | ForRESTMapper | ForDynamicClient | ForInformers | ForConfig | ForServer
    | ToRun
    // calls and assignments by the user
    | Flags
    | WithCustomMetrics(p: Option<Provider>) | WithExternalMetrics(q: Option<Provider>)
    | SetOptions(options: Option<Options>) | SetName(name: string) | SetKubeConfigFile(file: string)
    | SetDiscoveryInterval(interval: int) | SetFlagSet(flagSet: Option<FlagSet>)

  datatype Thing =
    | AClientConfig(clientConfig: ClientConfig)
    | ADiscoveryClient(discoveryClient: DiscoveryClient)
    | ARestMapper(restMapper: RestMapper)
    | ADynamicClient(dynamicClient: DynamicClient)
    | AnInformerFactory(informers: InformerFactory)
    | AServerConfig(config: ServerConfig)
    | AServer(server: Server)
    | AFlagSet(flags: FlagSet)
    | Nothing

  function Lift<T>(r: (Adapter, Got<T>), wrap: T -> Thing): (Adapter, Got<Thing>) {
    (r.0, match r.1 case Have(x) => Have(wrap(x)) case Failed => Failed case Panicked => Panicked)
  }

  function Apply(a: Adapter, c: Call, fate: Fate): (Adapter, Got<Thing>) {
    match c
    case ForClientConfig => Lift(GetClientConfig(a, fate), x => AClientConfig(x))
    case ForDiscoveryClient => Lift(GetDiscoveryClient(a, fate), x => ADiscoveryClient(x))
    case ForRESTMapper => Lift(GetRESTMapper(a, fate), x => ARestMapper(x))
    case ForDynamicClient => Lift(GetDynamicClient(a, fate), x => ADynamicClient(x))
    case ForInformers => Lift(GetInformers(a, fate), x => AnInformerFactory(x))
    case ForConfig => Lift(GetConfig(a, fate), x => AServerConfig(x))
    case ForServer => Lift(GetServer(a, fate), x => AServer(x))
    case ToRun => Lift(RunServer(a, fate), x => AServer(x))
    case Flags => (InstallFlags(a), Have(AFlagSet(InitFlagSet(a).flagSet.value)))
    case WithCustomMetrics(p) => (a.(cmProvider := p), Have(Nothing))
    case WithExternalMetrics(p) => (a.(emProvider := p), Have(Nothing))
    case SetOptions(o) => (a.(options := o), Have(Nothing))
    case SetName(n) => (a.(name := n), Have(Nothing))
    case SetKubeConfigFile(f) => (a.(kubeConfigFile := f), Have(Nothing))
    case SetDiscoveryInterval(i) => (a.(discoveryInterval := i), Have(Nothing))
    case SetFlagSet(f) => (a.(flagSet := f), Have(Nothing))
  }

  function ApplyAll(a: Adapter, calls: seq<Call>, fate: Fate): Adapter
    decreases |calls|
  {
    if calls == [] then a else ApplyAll(Apply(a, calls[0], fate).0, calls[1..], fate)
  }

  predicate Getter(c: Call) {
    c.ForClientConfig? || c.ForDiscoveryClient? || c.ForRESTMapper? || c.ForDynamicClient? || c.ForInformers?
    || c.ForConfig? || c.ForServer?
  }

  /** The object a getter has cached. */
  function Cached(a: Adapter, g: Call): Option<Thing>
    requires Getter(g)
  {
    match g
    case ForClientConfig => if a.clientConfig.Some? then Some(AClientConfig(a.clientConfig.value)) else None
    case ForDiscoveryClient => if a.discoveryClient.Some? then Some(ADiscoveryClient(a.discoveryClient.value)) else None
    case ForRESTMapper => if a.restMapper.Some? then Some(ARestMapper(a.restMapper.value)) else None
    case ForDynamicClient => if a.dynamicClient.Some? then Some(ADynamicClient(a.dynamicClient.value)) else None
    case ForInformers => if a.informers.Some? then Some(AnInformerFactory(a.informers.value)) else None
    case ForConfig => if a.config.Some? then Some(AServerConfig(a.config.value)) else None
    case ForServer => if a.server.Some? then Some(AServer(a.server.value)) else None
  }

  // ----- what is wired to what -----

  function Successes(attempts: seq<Attempt>, c: Constructor): nat {
    if attempts == [] then 0
    else Successes(attempts[..|attempts| - 1], c) + if attempts[|attempts| - 1] == Attempt(c, true) then 1 else 0
  }

  /** Everything cached was built from what is cached, and the flags were added to at most one flag set. */
  predicate Wired(a: Adapter) {
    && (a.discoveryClient.Some? ==> a.clientConfig == Some(a.discoveryClient.value.config))
    && (a.restMapper.Some? ==> a.discoveryClient == Some(a.restMapper.value.discovery))
    && (a.dynamicClient.Some? ==> a.clientConfig == Some(a.dynamicClient.value.config))
    && (a.informers.Some? ==> a.clientConfig == Some(a.informers.value.client.config))
    && (a.server.Some? ==> a.config == Some(a.server.value.config))
    && (a.config.Some? ==> a.flagsAdded != [])
    && |a.flagsAdded| <= 1
  }

  predicate Counts<T>(attempts: seq<Attempt>, c: Constructor, cached: Option<T>) {
    Successes(attempts, c) == if cached.Some? then 1 else 0
  }

  /** Every constructor has succeeded once for its cached object, and never in vain. */
  predicate BuiltOnce(a: Adapter) {
    && Counts(a.attempts, NewClientConfig, a.clientConfig)
    && Counts(a.attempts, NewDiscoveryClient, a.discoveryClient)
    && Counts(a.attempts, NewRestMapper, a.restMapper)
    && Counts(a.attempts, NewDynamicClient, a.dynamicClient)
    && Counts(a.attempts, NewKubeClient, a.informers)
    && Counts(a.attempts, NewServerConfig, a.config)
    && Counts(a.attempts, NewServer, a.server)
  }

  predicate Keeps(a: Adapter, b: Adapter) {
    && (a.clientConfig.Some? ==> b.clientConfig == a.clientConfig)
    && (a.discoveryClient.Some? ==> b.discoveryClient == a.discoveryClient)
    && (a.restMapper.Some? ==> b.restMapper == a.restMapper)
    && (a.dynamicClient.Some? ==> b.dynamicClient == a.dynamicClient)
    && (a.informers.Some? ==> b.informers == a.informers)
    && (a.config.Some? ==> b.config == a.config)
    && (a.server.Some? ==> b.server == a.server)
    && (a.flagsAdded != [] ==> b.flagsAdded == a.flagsAdded)
  }

  /** From `a` to `b` nothing cached is lost or replaced, and soundness is kept. */
  predicate Grows(a: Adapter, b: Adapter) {
    && Keeps(a, b)
    && (Wired(a) ==> Wired(b))
    && (BuiltOnce(a) ==> BuiltOnce(b))
  }

  lemma AttemptCounts(a: Adapter, k: Constructor, fate: Fate)
    ensures forall c :: Successes(a.Attempted(k, fate).attempts, c)
                        == Successes(a.attempts, c) + if c == k && a.NextWorks(fate) then 1 else 0
  {
    assert (a.attempts + [Attempt(k, a.NextWorks(fate))])[..|a.attempts|] == a.attempts;
  }

  lemma ClientConfigGrows(a: Adapter, fate: Fate)
    ensures Grows(a, GetClientConfig(a, fate).0)
    ensures GetClientConfig(a, fate).1.Have? ==>
              GetClientConfig(a, fate).0.clientConfig == Some(GetClientConfig(a, fate).1.object_)
    ensures var b := GetClientConfig(a, fate).0;
            b == a.(clientConfig := b.clientConfig, attempts := b.attempts)
  {
    hide Successes;
    AttemptCounts(a, NewClientConfig, fate);
  }

  lemma DiscoveryClientGrows(a: Adapter, fate: Fate)
    ensures Grows(a, GetDiscoveryClient(a, fate).0)
    ensures GetDiscoveryClient(a, fate).1.Have? ==>
              GetDiscoveryClient(a, fate).0.discoveryClient == Some(GetDiscoveryClient(a, fate).1.object_)
    ensures var b := GetDiscoveryClient(a, fate).0;
            b == a.(clientConfig := b.clientConfig, discoveryClient := b.discoveryClient, attempts := b.attempts)
  {
    hide GetClientConfig, Successes;
    ClientConfigGrows(a, fate);
    AttemptCounts(GetClientConfig(a, fate).0, NewDiscoveryClient, fate);
  }

  lemma RESTMapperGrows(a: Adapter, fate: Fate)
    ensures Grows(a, GetRESTMapper(a, fate).0)
  {
    hide GetDiscoveryClient, Successes;
    DiscoveryClientGrows(a, fate);
    AttemptCounts(GetDiscoveryClient(a, fate).0, NewRestMapper, fate);
  }

  lemma DynamicClientGrows(a: Adapter, fate: Fate)
    ensures Grows(a, GetDynamicClient(a, fate).0)
  {
    hide GetClientConfig, Successes;
    ClientConfigGrows(a, fate);
    AttemptCounts(GetClientConfig(a, fate).0, NewDynamicClient, fate);
  }

  lemma InformersGrow(a: Adapter, fate: Fate)
    ensures Grows(a, GetInformers(a, fate).0)
  {
    hide GetClientConfig, Successes;
    ClientConfigGrows(a, fate);
    AttemptCounts(GetClientConfig(a, fate).0, NewKubeClient, fate);
  }

  lemma FlagsGrow(a: Adapter)
    ensures Grows(a, InstallFlags(a)) && InstallFlags(a).flagsAdded != []
    ensures var b := InstallFlags(a);
            b == a.(options := b.options, flagSet := b.flagSet, flagsAdded := b.flagsAdded)
  {
  }

  lemma ConfigAttemptGrows(b: Adapter, fate: Fate)
    requires b.config.None? && b.options.Some? && b.flagsAdded != []
    ensures !b.NextWorks(fate) ==> Grows(b, b.Attempted(NewServerConfig, fate))
    ensures b.NextWorks(fate) ==>
              Grows(b, b.Attempted(NewServerConfig, fate).(config := Some(ServerConfig(|b.attempts|, b.options.value))))
  {
    AttemptCounts(b, NewServerConfig, fate);
  }

  lemma ConfigGrows(a: Adapter, fate: Fate)
    ensures Grows(a, GetConfig(a, fate).0)
    ensures var b := GetConfig(a, fate).0;
            b == a.(options := b.options, flagSet := b.flagSet, flagsAdded := b.flagsAdded, config := b.config,
                    attempts := b.attempts)
    ensures GetConfig(a, fate).1.Have? ==> GetConfig(a, fate).0.config == Some(GetConfig(a, fate).1.object_)
  {
    hide InstallFlags, Successes, BuiltOnce, Wired;
    FlagsGrow(a);
    if a.config.None? && InstallFlags(a).options.Some? {
      ConfigAttemptGrows(InstallFlags(a), fate);
    }
  }

  lemma ServerAttemptGrows(c: Adapter, fate: Fate, s: Server)
    requires c.server.None? && c.config == Some(s.config)
    ensures !c.NextWorks(fate) ==> Grows(c, c.Attempted(NewServer, fate))
    ensures c.NextWorks(fate) ==> Grows(c, c.Attempted(NewServer, fate).(server := Some(s)))
  {
    AttemptCounts(c, NewServer, fate);
  }

  lemma ServerGrows(a: Adapter, fate: Fate)
    ensures Grows(a, GetServer(a, fate).0)
  {
    ConfigGrows(a, fate);
    var (b, config) := GetConfig(a, fate);
    if a.server.None? && config.Have? {
      var c := if b.name == "" then b.(name := DEFAULT_NAME) else b;
      assert Grows(b, c);
      var s := Server(|c.attempts|, config.object_, c.name, c.informers, c.cmProvider, c.emProvider);
      ServerAttemptGrows(c, fate, s);
      assert GetServer(a, fate).0 == if c.NextWorks(fate) then c.Attempted(NewServer, fate).(server := Some(s))
                                     else c.Attempted(NewServer, fate);
    }
  }

  lemma ApplyGrows(a: Adapter, c: Call, fate: Fate)
    ensures Grows(a, Apply(a, c, fate).0)
  {
    match c
    case ForClientConfig => ClientConfigGrows(a, fate);
    case ForDiscoveryClient => DiscoveryClientGrows(a, fate);
    case ForRESTMapper => RESTMapperGrows(a, fate);
    case ForDynamicClient => DynamicClientGrows(a, fate);
    case ForInformers => InformersGrow(a, fate);
    case ForConfig => ConfigGrows(a, fate);
    case ForServer => ServerGrows(a, fate);
    case ToRun => ServerGrows(a, fate);
    case Flags => FlagsGrow(a);
    case _ =>
  }

  lemma {:induction false} GrowsForever(a: Adapter, calls: seq<Call>, fate: Fate)
    ensures Grows(a, ApplyAll(a, calls, fate))
    decreases |calls|
  {
    if calls != [] {
      ApplyGrows(a, calls[0], fate);
      GrowsForever(Apply(a, calls[0], fate).0, calls[1..], fate);
    }
  }

  /** In every state a new adapter can reach: cached objects were built from the cached ones they depend on, every
      constructor has succeeded exactly as often as its object is cached (once or never), and the flags were added to
      at most one flag set. */
  lemma AlwaysSound(calls: seq<Call>, fate: Fate)
    ensures Wired(ApplyAll(NEW, calls, fate)) && BuiltOnce(ApplyAll(NEW, calls, fate))
  {
    GrowsForever(NEW, calls, fate);
  }

  // ----- memoization -----

  lemma GivenIsCached(a: Adapter, g: Call, fate: Fate)
    requires Getter(g)
    ensures Apply(a, g, fate).1.Have? ==> Cached(Apply(a, g, fate).0, g) == Some(Apply(a, g, fate).1.object_)
    ensures Cached(a, g).Some? ==> Apply(a, g, fate) == (a, Have(Cached(a, g).value))
  {
  }

  lemma CachedForever(a: Adapter, calls: seq<Call>, fate: Fate, g: Call)
    requires Getter(g) && Cached(a, g).Some?
    ensures Cached(ApplyAll(a, calls, fate), g) == Cached(a, g)
  {
    GrowsForever(a, calls, fate);
  }

  /** After its first success a getter gives the same object forever, whatever is called or assigned in between, and
      changes nothing any more. */
  lemma SameObjectForever(a: Adapter, g: Call, calls: seq<Call>, fate: Fate)
    requires Getter(g) && Apply(a, g, fate).1.Have?
    ensures var first := Apply(a, g, fate);
            var later := ApplyAll(first.0, calls, fate);
            Apply(later, g, fate) == (later, first.1)
  {
    var first := Apply(a, g, fate);
    GivenIsCached(a, g, fate);
    CachedForever(first.0, calls, fate, g);
    GivenIsCached(ApplyAll(first.0, calls, fate), g, fate);
  }

  // ----- idempotence -----

  /** What the adapter itself keeps: everything but the record of constructions. */
  function Bare(a: Adapter): Adapter {
    a.(attempts := [])
  }

  /** How many constructions a call has to make, if none fails. */
  function Missing(a: Adapter, c: Call): nat
    decreases if c.ForRESTMapper? then 2 else if c.ForClientConfig? || c.ForConfig? then 0 else 1
  {
    match c
    case ForClientConfig => if a.clientConfig.Some? then 0 else 1
    case ForDiscoveryClient => if a.discoveryClient.Some? then 0 else 1 + Missing(a, ForClientConfig)
    case ForRESTMapper => if a.restMapper.Some? then 0 else 1 + Missing(a, ForDiscoveryClient)
    case ForDynamicClient => if a.dynamicClient.Some? then 0 else 1 + Missing(a, ForClientConfig)
    case ForInformers => if a.informers.Some? then 0 else 1 + Missing(a, ForClientConfig)
    case ForConfig => if a.config.Some? then 0 else 1
    case ForServer => if a.server.Some? then 0 else 1 + Missing(a, ForConfig)
    case _ => 0
  }

  /** Of the next `left` constructions one fails, and succeeds when tried again right after. */
  predicate RetrySucceeds(fate: Fate, n: nat, left: nat)
    decreases left
  {
    left > 0 && if fate.builds(n) then RetrySucceeds(fate, n + 1, left - 1) else fate.builds(n + 1)
  }

  /** The call needs a configuration, but the user took the options away. */
  predicate WillPanic(a: Adapter, c: Call) {
    && a.config.None? && a.options.None? && a.flagsAdded != []
    && (c.ForConfig? || ((c.ForServer? || c.ToRun?) && a.server.None?))
  }

  predicate Repeats(a: Adapter, c: Call, fate: Fate) {
    var once := Apply(a, c, fate);
    var twice := Apply(once.0, c, fate);
    Bare(twice.0) == Bare(once.0) && twice.1 == once.1
  }

  lemma CachedRepeats(a: Adapter, g: Call, fate: Fate)
    requires Getter(g) && Cached(a, g).Some?
    ensures Repeats(a, g, fate)
  {
    GivenIsCached(a, g, fate);
  }

  lemma LastRetry(fate: Fate, n: nat)
    ensures !RetrySucceeds(fate, n, 0)
    ensures RetrySucceeds(fate, n, 1) <==> !fate.builds(n) && fate.builds(n + 1)
  {
  }

  lemma ClientConfigIdempotent(a: Adapter, fate: Fate)
    ensures Repeats(a, ForClientConfig, fate) <==> !RetrySucceeds(fate, |a.attempts|, Missing(a, ForClientConfig))
  {
    LastRetry(fate, |a.attempts|);
    LastRetry(fate, |a.attempts| + 1);
  }

  lemma DiscoveryClientIdempotent(a: Adapter, fate: Fate)
    ensures Repeats(a, ForDiscoveryClient, fate) <==> !RetrySucceeds(fate, |a.attempts|, Missing(a, ForDiscoveryClient))
  {
    LastRetry(fate, |a.attempts|);
    LastRetry(fate, |a.attempts| + 1);
  }

  lemma DynamicClientIdempotent(a: Adapter, fate: Fate)
    ensures Repeats(a, ForDynamicClient, fate) <==> !RetrySucceeds(fate, |a.attempts|, Missing(a, ForDynamicClient))
  {
    LastRetry(fate, |a.attempts|);
    LastRetry(fate, |a.attempts| + 1);
  }

  lemma InformersIdempotent(a: Adapter, fate: Fate)
    ensures Repeats(a, ForInformers, fate) <==> !RetrySucceeds(fate, |a.attempts|, Missing(a, ForInformers))
  {
    LastRetry(fate, |a.attempts|);
    LastRetry(fate, |a.attempts| + 1);
  }

  /** If what a mapper is built from can be had, one more construction decides; if not, that construction is
      never reached. */
  lemma DiscoveryClientBuilds(a: Adapter, fate: Fate)
    ensures !GetDiscoveryClient(a, fate).1.Panicked?
    ensures var (b, r) := GetDiscoveryClient(a, fate);
            RetrySucceeds(fate, |a.attempts|, Missing(a, ForDiscoveryClient) + 1)
            == if r.Have? then RetrySucceeds(fate, |b.attempts|, 1)
               else RetrySucceeds(fate, |a.attempts|, Missing(a, ForDiscoveryClient))
  {
    LastRetry(fate, |a.attempts|);
    LastRetry(fate, |a.attempts| + 1);
    LastRetry(fate, |a.attempts| + 2);
  }

  lemma DiscoveryClientGiven(a: Adapter, fate: Fate)
    ensures a.discoveryClient.Some? ==> GetDiscoveryClient(a, fate) == (a, Have(a.discoveryClient.value))
    ensures GetDiscoveryClient(a, fate).0.restMapper == a.restMapper
    ensures var (b, r) := GetDiscoveryClient(a, fate);
            b.discoveryClient == if r.Have? then Some(r.object_) else None
  {
  }

  /** A mapper fails to build on a discovery client that is there, and is tried again. */
  lemma RESTMapperRetried(a: Adapter, fate: Fate)
    requires a.restMapper.None? && GetDiscoveryClient(a, fate).1.Have?
    ensures Repeats(a, ForRESTMapper, fate) <==> !RetrySucceeds(fate, |GetDiscoveryClient(a, fate).0.attempts|, 1)
  {
    hide GetDiscoveryClient, RetrySucceeds;
    var (b, r) := GetDiscoveryClient(a, fate);
    DiscoveryClientGiven(a, fate);
    DiscoveryClientGiven(b.Attempted(NewRestMapper, fate), fate);
    LastRetry(fate, |b.attempts|);
  }

  lemma RESTMapperWithoutDiscovery(a: Adapter, fate: Fate)
    requires a.restMapper.None? && !GetDiscoveryClient(a, fate).1.Have?
    ensures Repeats(a, ForRESTMapper, fate) <==> Repeats(a, ForDiscoveryClient, fate)
  {
    hide GetDiscoveryClient;
    var (b, r) := GetDiscoveryClient(a, fate);
    var (c, q) := GetDiscoveryClient(b, fate);
    DiscoveryClientGiven(a, fate);
    DiscoveryClientGiven(b, fate);
    DiscoveryClientBuilds(a, fate);
    DiscoveryClientBuilds(b, fate);
  }

  lemma RESTMapperIdempotent(a: Adapter, fate: Fate)
    ensures Repeats(a, ForRESTMapper, fate) <==> !RetrySucceeds(fate, |a.attempts|, Missing(a, ForRESTMapper))
  {
    hide GetDiscoveryClient, RetrySucceeds, Repeats;
    LastRetry(fate, |a.attempts|);
    DiscoveryClientBuilds(a, fate);
    if a.restMapper.Some? {
      CachedRepeats(a, ForRESTMapper, fate);
    } else if GetDiscoveryClient(a, fate).1.Have? {
      RESTMapperRetried(a, fate);
    } else {
      RESTMapperWithoutDiscovery(a, fate);
      DiscoveryClientIdempotent(a, fate);
    }
  }

  lemma ConfigIdempotent(a: Adapter, fate: Fate)
    ensures Repeats(a, ForConfig, fate) <==>
            WillPanic(a, ForConfig) || !RetrySucceeds(fate, |a.attempts|, Missing(a, ForConfig))
  {
    LastRetry(fate, |a.attempts|);
  }

  /** If what a server is built from can be had, one more construction decides; if not, that construction is
      never reached. */
  lemma ConfigBuilds(a: Adapter, fate: Fate)
    requires !WillPanic(a, ForConfig)
    ensures var (b, r) := GetConfig(a, fate);
            RetrySucceeds(fate, |a.attempts|, Missing(a, ForConfig) + 1)
            == if r.Have? then RetrySucceeds(fate, |b.attempts|, 1)
               else RetrySucceeds(fate, |a.attempts|, Missing(a, ForConfig))
  {
    LastRetry(fate, |a.attempts|);
    LastRetry(fate, |a.attempts| + 1);
    LastRetry(fate, |a.attempts| + 2);
  }

  lemma ConfigGiven(a: Adapter, fate: Fate)
    ensures a.config.Some? ==> GetConfig(a, fate) == (a, Have(a.config.value))
    ensures GetConfig(a, fate).0.server == a.server
    ensures var (b, r) := GetConfig(a, fate);
            b.config == if r.Have? then Some(r.object_) else None
  {
  }

  /** A server fails to build on a configuration that is there, and is tried again. */
  lemma ServerRetried(a: Adapter, fate: Fate)
    requires a.server.None? && GetConfig(a, fate).1.Have?
    ensures Repeats(a, ForServer, fate) <==> !RetrySucceeds(fate, |GetConfig(a, fate).0.attempts|, 1)
  {
    hide GetConfig, RetrySucceeds;
    var (b, r) := GetConfig(a, fate);
    var c := if b.name == "" then b.(name := DEFAULT_NAME) else b;
    ConfigGiven(a, fate);
    ConfigGiven(c.Attempted(NewServer, fate), fate);
    LastRetry(fate, |b.attempts|);
  }

  lemma ServerWithoutConfig(a: Adapter, fate: Fate)
    requires a.server.None? && !GetConfig(a, fate).1.Have?
    ensures Repeats(a, ForServer, fate) <==> Repeats(a, ForConfig, fate)
  {
    hide GetConfig;
    var (b, r) := GetConfig(a, fate);
    var (c, q) := GetConfig(b, fate);
    ConfigGiven(a, fate);
    ConfigGiven(b, fate);
    ConfigGrows(a, fate);
  }

  lemma ServerIdempotent(a: Adapter, fate: Fate)
    ensures Repeats(a, ForServer, fate) <==>
            WillPanic(a, ForServer) || !RetrySucceeds(fate, |a.attempts|, Missing(a, ForServer))
  {
    hide GetConfig, RetrySucceeds, Repeats;
    LastRetry(fate, |a.attempts|);
    if a.server.Some? {
      CachedRepeats(a, ForServer, fate);
    } else if GetConfig(a, fate).1.Have? {
      ServerRetried(a, fate);
      PanicsExactly(a, ForConfig, fate);
      ConfigBuilds(a, fate);
    } else {
      ServerWithoutConfig(a, fate);
      ConfigIdempotent(a, fate);
      if !WillPanic(a, ForConfig) {
        ConfigBuilds(a, fate);
      }
    }
  }

  lemma OtherCallsRepeat(a: Adapter, c: Call, fate: Fate)
    requires !Getter(c) && !c.ToRun?
    ensures Repeats(a, c, fate)
  {
  }

  /** Calling twice has the effect and the result of calling once, for every call but `Run`, exactly when the first
      construction to fail, if any, fails again when tried again. */
  lemma IdempotentExactly(a: Adapter, c: Call, fate: Fate)
    requires !c.ToRun?
    ensures Repeats(a, c, fate) <==> WillPanic(a, c) || !RetrySucceeds(fate, |a.attempts|, Missing(a, c))
  {
    hide Repeats, RetrySucceeds;
    LastRetry(fate, |a.attempts|);
    match c
    case ForClientConfig => ClientConfigIdempotent(a, fate);
    case ForDiscoveryClient => DiscoveryClientIdempotent(a, fate);
    case ForRESTMapper => RESTMapperIdempotent(a, fate);
    case ForDynamicClient => DynamicClientIdempotent(a, fate);
    case ForInformers => InformersIdempotent(a, fate);
    case ForConfig => ConfigIdempotent(a, fate);
    case ForServer => ServerIdempotent(a, fate);
    case _ => OtherCallsRepeat(a, c, fate);
  }

  /** A call of `Run` is never the same as two: each successful one runs the server. */
  lemma RunIsNotIdempotent(a: Adapter, fate: Fate)
    requires Apply(a, ForServer, fate).1.Have?
    ensures !Repeats(a, ToRun, fate)
  {
  }

  /** The failing family from the start: the first construction fails once and then works. */
  lemma RetriedFromNew(fate: Fate)
    requires !fate.builds(0) && fate.builds(1)
    ensures Apply(NEW, ForClientConfig, fate).1.Failed?
    ensures Apply(Apply(NEW, ForClientConfig, fate).0, ForClientConfig, fate).1.Have?
    ensures !Repeats(NEW, ForClientConfig, fate)
  {
  }

  // ----- cementing -----

  /** The first successful `Server` cements the name, providers and informers of that moment and the configuration
      of then or before: every later `Server` and `Run` uses that server, whatever happens in between. */
  lemma ServerCements(a: Adapter, calls: seq<Call>, fate: Fate)
    requires a.server.None? && Apply(a, ForServer, fate).1.Have?
    ensures var first := Apply(a, ForServer, fate);
            var s := first.1.object_.server;
            var later := ApplyAll(first.0, calls, fate);
            && first.1.object_.AServer?
            && s.customMetrics == a.cmProvider && s.externalMetrics == a.emProvider && s.informers == a.informers
            && s.name == (if a.name == "" then DEFAULT_NAME else a.name)
            && (a.config.Some? ==> s.config == a.config.value)
            && (a.config.None? ==> s.config.options == InstallFlags(a).options.value)
            && Apply(later, ForServer, fate) == (later, first.1)
            && Apply(later, ToRun, fate)
               == (later.(runs := later.runs + [s]), if fate.serves(|later.runs|) then first.1 else Failed)
  {
    SameObjectForever(a, ForServer, calls, fate);
  }

  /** `Config` cements the options but nothing else: what is set between it and `Server` still counts. */
  lemma ConfigCementsOptionsOnly(a: Adapter, calls: seq<Call>, fate: Fate)
    requires Apply(a, ForConfig, fate).1.Have?
    ensures var configured := Apply(a, ForConfig, fate);
            var later := ApplyAll(configured.0, calls, fate);
            var served := Apply(later, ForServer, fate);
            later.server.None? && served.1.Have? ==>
              && served.1.object_.AServer?
              && AServerConfig(served.1.object_.server.config) == configured.1.object_
              && served.1.object_.server.customMetrics == later.cmProvider
              && served.1.object_.server.externalMetrics == later.emProvider
              && served.1.object_.server.informers == later.informers
  {
    GivenIsCached(a, ForConfig, fate);
    CachedForever(Apply(a, ForConfig, fate).0, calls, fate, ForConfig);
  }

  // ----- where the documented behaviour ends -----

  /** The only panic: a user unset the options after the flags were installed, and no config was built before. */
  lemma PanicsExactly(a: Adapter, c: Call, fate: Fate)
    ensures Apply(a, c, fate).1.Panicked? <==> WillPanic(a, c)
    ensures Apply(a, c, fate).1.Panicked? ==> Apply(Apply(a, c, fate).0, c, fate) == Apply(a, c, fate)
  {
  }

  /** The shortest way to a panic from a new adapter. */
  lemma PanicFromNew(fate: Fate)
    ensures Apply(ApplyAll(NEW, [Flags, SetOptions(None)], fate), ForConfig, fate).1.Panicked?
  {
    assert [Flags, SetOptions(None)][1..] == [SetOptions(None)];
  }

  predicate NeverUnsets(calls: seq<Call>) {
    forall i :: 0 <= i < |calls| ==> calls[i] != SetOptions(None)
  }

  predicate OptionsReady(a: Adapter) {
    a.flagsAdded != [] ==> a.options.Some?
  }

  predicate ForClients(c: Call) {
    c.ForClientConfig? || c.ForDiscoveryClient? || c.ForRESTMapper? || c.ForDynamicClient? || c.ForInformers?
  }

  predicate SameFlags(a: Adapter, b: Adapter) {
    b.options == a.options && b.flagSet == a.flagSet && b.flagsAdded == a.flagsAdded
  }

  lemma ClientConfigLeavesFlags(a: Adapter, fate: Fate)
    ensures SameFlags(a, GetClientConfig(a, fate).0)
  {
  }

  lemma DiscoveryClientLeavesFlags(a: Adapter, fate: Fate)
    ensures SameFlags(a, GetDiscoveryClient(a, fate).0)
  {
    hide GetClientConfig;
    ClientConfigLeavesFlags(a, fate);
  }

  /** Constructing clients has nothing to do with options and flags. */
  lemma ClientsLeaveFlags(a: Adapter, c: Call, fate: Fate)
    requires ForClients(c)
    ensures SameFlags(a, Apply(a, c, fate).0)
  {
    hide GetClientConfig, GetDiscoveryClient;
    ClientConfigLeavesFlags(a, fate);
    DiscoveryClientLeavesFlags(a, fate);
  }

  lemma OthersStayReady(a: Adapter, c: Call, fate: Fate)
    requires !ForClients(c) && c != SetOptions(None) && OptionsReady(a)
    ensures OptionsReady(Apply(a, c, fate).0)
  {
  }

  lemma OptionsStayReady(a: Adapter, c: Call, fate: Fate)
    requires c != SetOptions(None) && OptionsReady(a)
    ensures OptionsReady(Apply(a, c, fate).0)
  {
    hide Apply;
    if ForClients(c) {
      ClientsLeaveFlags(a, c, fate);
    } else {
      OthersStayReady(a, c, fate);
    }
  }

  lemma {:induction false} OptionsStay(a: Adapter, calls: seq<Call>, fate: Fate)
    requires NeverUnsets(calls) && OptionsReady(a)
    ensures OptionsReady(ApplyAll(a, calls, fate))
    decreases |calls|
  {
    if calls != [] {
      OptionsStayReady(a, calls[0], fate);
      OptionsStay(Apply(a, calls[0], fate).0, calls[1..], fate);
    }
  }

  /** No sequence of calls on a new adapter panics unless it unsets the options. */
  lemma NoPanic(calls: seq<Call>, c: Call, fate: Fate)
    requires NeverUnsets(calls)
    ensures !Apply(ApplyAll(NEW, calls, fate), c, fate).1.Panicked?
  {
    OptionsStay(NEW, calls, fate);
    PanicsExactly(ApplyAll(NEW, calls, fate), c, fate);
  }

  lemma FlagsInstalled(a: Adapter)
    requires Wired(a)
    ensures InstallFlags(a).flagsAdded == [if a.flagsAdded == [] then InPlace(a) else a.flagsAdded[0]]
    ensures InstallFlags(a).flagSet == Some(InPlace(a))
  {
  }

  /** The flag set in place; the command line's if none was set. */
  function InPlace(a: Adapter): FlagSet {
    if a.flagSet.None? then COMMAND_LINE else a.flagSet.value
  }

  /** The flag set assigned last by some calls; `start` if none assigns one. */
  function LastAssigned(start: FlagSet, calls: seq<Call>): FlagSet
    decreases |calls|
  {
    if calls == [] then start
    else
      var next := match calls[0]
                  case SetFlagSet(None) => COMMAND_LINE
                  case SetFlagSet(Some(fs)) => fs
                  case _ => start;
      LastAssigned(next, calls[1..])
  }

  lemma OthersInPlace(a: Adapter, c: Call, fate: Fate)
    requires !ForClients(c)
    ensures InPlace(Apply(a, c, fate).0) == LastAssigned(InPlace(a), [c])
  {
  }

  lemma InPlaceAfterCall(a: Adapter, c: Call, fate: Fate)
    ensures InPlace(Apply(a, c, fate).0) == LastAssigned(InPlace(a), [c])
  {
    if ForClients(c) {
      hide Apply;
      ClientsLeaveFlags(a, c, fate);
    } else {
      OthersInPlace(a, c, fate);
    }
  }

  /** Only assignments change which flag set is in place. */
  lemma {:induction false} InPlaceAfter(a: Adapter, calls: seq<Call>, fate: Fate)
    ensures InPlace(ApplyAll(a, calls, fate)) == LastAssigned(InPlace(a), calls)
    decreases |calls|
  {
    hide Apply, InPlace;
    if calls != [] {
      InPlaceAfterCall(a, calls[0], fate);
      assert [calls[0]][1..] == [];
      InPlaceAfter(Apply(a, calls[0], fate).0, calls[1..], fate);
    }
  }

  /** `Flags` gives the flag set assigned last, and the flags stay on the one in place when they were first installed:
      they are lost exactly when the calls in between leave another one assigned. */
  lemma FlagsAreLostExactly(a: Adapter, calls: seq<Call>, fate: Fate)
    requires Wired(a)
    ensures var later := ApplyAll(Apply(a, Flags, fate).0, calls, fate);
            var again := Apply(later, Flags, fate);
            var home := if a.flagsAdded == [] then InPlace(a) else a.flagsAdded[0];
            && again.0.flagsAdded == [home]
            && again.1 == Have(AFlagSet(LastAssigned(InPlace(a), calls)))
            && (again.1.object_.flags !in again.0.flagsAdded <==> LastAssigned(InPlace(a), calls) != home)
  {
    hide ApplyAll, Wired, BuiltOnce;
    FlagsInstalled(a);
    GrowsForever(Apply(a, Flags, fate).0, calls, fate);
    InPlaceAfter(Apply(a, Flags, fate).0, calls, fate);
  }

  /** The flags are lost from a new adapter by assigning another flag set after a first `Flags`. */
  lemma FlagsLostFromNew(fs: FlagSet, fate: Fate)
    requires fs != COMMAND_LINE
    ensures var later := ApplyAll(NEW, [Flags, SetFlagSet(Some(fs))], fate);
            var again := Apply(later, Flags, fate);
            again.1 == Have(AFlagSet(fs)) && fs !in again.0.flagsAdded
  {
    var rest := [SetFlagSet(Some(fs))];
    assert [Flags, SetFlagSet(Some(fs))][1..] == rest;
    FlagsAreLostExactly(NEW, rest, fate);
    assert LastAssigned(COMMAND_LINE, rest) == LastAssigned(fs, rest[1..]) == fs;
  }

  predicate SameClients(a: Adapter, b: Adapter) {
    && b.clientConfig == a.clientConfig && b.discoveryClient == a.discoveryClient
    && b.restMapper == a.restMapper && b.dynamicClient == a.dynamicClient && b.informers == a.informers
  }

  lemma ConfigBuildsNoClients(a: Adapter, fate: Fate)
    ensures SameClients(a, GetConfig(a, fate).0)
  {
  }

  /** Serving never constructs a client, a mapper or informers the user did not ask for. */
  lemma ServingBuildsNoClients(a: Adapter, fate: Fate)
    ensures SameClients(a, Apply(a, ToRun, fate).0)
  {
    hide GetConfig, Wired, BuiltOnce, Successes;
    ConfigBuildsNoClients(a, fate);
    assert SameClients(a, GetServer(a, fate).0);
  }
}
