/** The state of an adapter under construction, as a value, and what each of its methods does to it. */
module AdapterState {
  import opened Results

  // ----- what gets constructed; every object carries what it was constructed from -----

  datatype ClientConfig = ClientConfig(id: nat, kubeConfigFile: string)
  datatype DiscoveryClient = DiscoveryClient(id: nat, config: ClientConfig)
  datatype RestMapper = RestMapper(id: nat, discovery: DiscoveryClient, interval: int)
  datatype DynamicClient = DynamicClient(id: nat, config: ClientConfig)
  datatype KubeClient = KubeClient(id: nat, config: ClientConfig)
  datatype InformerFactory = InformerFactory(client: KubeClient)
  datatype Options = DefaultOptions | GivenOptions(id: nat)
  datatype ServerConfig = ServerConfig(id: nat, options: Options)
  datatype Server = Server(id: nat, config: ServerConfig, name: string, informers: Option<InformerFactory>,
                           customMetrics: Option<Provider>, externalMetrics: Option<Provider>)

  type Provider = nat
  type FlagSet = nat

  const COMMAND_LINE: FlagSet := 0

  const DEFAULT_NAME := "custom-metrics-adapter"

  /** The constructors that can fail. */
  datatype Constructor = NewClientConfig | NewDiscoveryClient | NewRestMapper | NewDynamicClient | NewKubeClient
                       | NewServerConfig | NewServer

  datatype Attempt = Attempt(constructor_: Constructor, succeeded: bool)

  /** Whether the n-th construction attempted succeeds, and whether the n-th server run ends without an error: nothing
      is assumed about either. */
  datatype Fate = Fate(builds: nat -> bool, serves: nat -> bool)

  datatype Adapter = Adapter(
    // fields a user sets
    options: Option<Options>,
    name: string,
    kubeConfigFile: string,
    discoveryInterval: int,
    flagSet: Option<FlagSet>,
    cmProvider: Option<Provider>,
    emProvider: Option<Provider>,
    // cached objects
    clientConfig: Option<ClientConfig>,
    discoveryClient: Option<DiscoveryClient>,
    restMapper: Option<RestMapper>,
    dynamicClient: Option<DynamicClient>,
    informers: Option<InformerFactory>,
    config: Option<ServerConfig>,
    server: Option<Server>,
    // what has happened: constructions attempted, flag sets the flags were added to, servers run
    attempts: seq<Attempt>,
    flagsAdded: seq<FlagSet>,
    runs: seq<Server>)
  {
    /** One more construction; its identity is its number. */
    function Attempted(c: Constructor, fate: Fate): Adapter {
      this.(attempts := attempts + [Attempt(c, fate.builds(|attempts|))])
    }

    function NextWorks(fate: Fate): bool {
      fate.builds(|attempts|)
    }
  }

  const NEW := Adapter(None, "", "", 0, None, None, None, None, None, None, None, None, None, None, [], [], [])

  /** What a call gives back: an object, an error, or a nil dereference. */
  datatype Got<+T> = Have(object_: T) | Failed | Panicked

  // ----- the methods -----

  function InitFlagSet(a: Adapter): Adapter {
    if a.flagSet.None? then a.(flagSet := Some(COMMAND_LINE)) else a
  }

  /** The flags are added once, to the flag set of that moment. */
  function InstallFlags(a: Adapter): Adapter {
    var b := InitFlagSet(a);
    if b.flagsAdded == [] then
      b.(options := if b.options.None? then Some(DefaultOptions) else b.options, flagsAdded := b.flagsAdded + [b.flagSet.value])
    else b
  }

  function GetClientConfig(a: Adapter, fate: Fate): (Adapter, Got<ClientConfig>) {
    match a.clientConfig
    case Some(c) => (a, Have(c))
    case None =>
      var b := a.Attempted(NewClientConfig, fate);
      if !a.NextWorks(fate) then (b, Failed)
      else
        var c := ClientConfig(|a.attempts|, a.kubeConfigFile);
        (b.(clientConfig := Some(c)), Have(c))
  }

  function GetDiscoveryClient(a: Adapter, fate: Fate): (Adapter, Got<DiscoveryClient>) {
    match a.discoveryClient
    case Some(d) => (a, Have(d))
    case None =>
      var (b, config) := GetClientConfig(a, fate);
      if !config.Have? then (b, Failed)
      else
        var c := b.Attempted(NewDiscoveryClient, fate);
        if !b.NextWorks(fate) then (c, Failed)
        else
          var d := DiscoveryClient(|b.attempts|, config.object_);
          (c.(discoveryClient := Some(d)), Have(d))
  }

  function GetRESTMapper(a: Adapter, fate: Fate): (Adapter, Got<RestMapper>) {
    match a.restMapper
    case Some(m) => (a, Have(m))
    case None =>
      var (b, discovery) := GetDiscoveryClient(a, fate);
      if !discovery.Have? then (b, Failed)
      else
        var c := b.Attempted(NewRestMapper, fate);
        if !b.NextWorks(fate) then (c, Failed)
        else
          var m := RestMapper(|b.attempts|, discovery.object_, b.discoveryInterval);
          (c.(restMapper := Some(m)), Have(m))
  }

  function GetDynamicClient(a: Adapter, fate: Fate): (Adapter, Got<DynamicClient>) {
    match a.dynamicClient
    case Some(d) => (a, Have(d))
    case None =>
      var (b, config) := GetClientConfig(a, fate);
      if !config.Have? then (b, Failed)
      else
        var c := b.Attempted(NewDynamicClient, fate);
        if !b.NextWorks(fate) then (c, Failed)
        else
          var d := DynamicClient(|b.attempts|, config.object_);
          (c.(dynamicClient := Some(d)), Have(d))
  }

  function GetInformers(a: Adapter, fate: Fate): (Adapter, Got<InformerFactory>) {
    match a.informers
    case Some(i) => (a, Have(i))
    case None =>
      var (b, config) := GetClientConfig(a, fate);
      if !config.Have? then (b, Failed)
      else
        var c := b.Attempted(NewKubeClient, fate);
        if !b.NextWorks(fate) then (c, Failed)
        else
          var i := InformerFactory(KubeClient(|b.attempts|, config.object_));
          (c.(informers := Some(i)), Have(i))
  }

  function GetConfig(a: Adapter, fate: Fate): (Adapter, Got<ServerConfig>) {
    match a.config
    case Some(c) => (a, Have(c))
    case None =>
      var b := InstallFlags(a);
      if b.options.None? then (b, Panicked)
      else
        var c := b.Attempted(NewServerConfig, fate);
        if !b.NextWorks(fate) then (c, Failed)
        else
          var config := ServerConfig(|b.attempts|, b.options.value);
          (c.(config := Some(config)), Have(config))
  }

  function GetServer(a: Adapter, fate: Fate): (Adapter, Got<Server>) {
    match a.server
    case Some(s) => (a, Have(s))
    case None =>
      var (b, config) := GetConfig(a, fate);
      match config
      case Panicked => (b, Panicked)
      case Failed => (b, Failed)
      case Have(cfg) =>
        var c := if b.name == "" then b.(name := DEFAULT_NAME) else b;
        var d := c.Attempted(NewServer, fate);
        if !c.NextWorks(fate) then (d, Failed)
        else
          var s := Server(|c.attempts|, cfg, c.name, c.informers, c.cmProvider, c.emProvider);
          (d.(server := Some(s)), Have(s))
  }

  function RunServer(a: Adapter, fate: Fate): (Adapter, Got<Server>) {
    var (b, server) := GetServer(a, fate);
    if !server.Have? then (b, server)
    else (b.(runs := b.runs + [server.object_]), if fate.serves(|b.runs|) then server else Failed)
  }
}
