/** The adapter base: lazily constructed, cached building blocks of an adapter. */
module AdapterBase {
  import opened Results
  import opened AdapterState

  class Base {
    const fate: Fate
    var options: Option<Options>
    var name: string
    var kubeConfigFile: string
    var discoveryInterval: int
    var flagSet: Option<FlagSet>
    var cmProvider: Option<Provider>
    var emProvider: Option<Provider>
    var clientConfig: Option<ClientConfig>
    var discoveryClient: Option<DiscoveryClient>
    var restMapper: Option<RestMapper>
    var dynamicClient: Option<DynamicClient>
    var informers: Option<InformerFactory>
    var config: Option<ServerConfig>
    var server: Option<Server>
    var attempts: seq<Attempt>
    var flagsAdded: seq<FlagSet>
    var runs: seq<Server>

    function State(): Adapter
      reads this
    {
      Adapter(options, name, kubeConfigFile, discoveryInterval, flagSet, cmProvider, emProvider, clientConfig,
              discoveryClient, restMapper, dynamicClient, informers, config, server, attempts, flagsAdded, runs)
    }

    constructor (fate: Fate)
      ensures this.fate == fate && State() == NEW
    {
      this.fate := fate;
      options, name, kubeConfigFile, discoveryInterval, flagSet := None, "", "", 0, None;
      cmProvider, emProvider := None, None;
      clientConfig, discoveryClient, restMapper, dynamicClient, informers := None, None, None, None, None;
      config, server := None, None;
      attempts, flagsAdded, runs := [], [], [];
    }

    /** A constructor of a library: its fate decides, and its number is the new object's identity. */
    method Construct(c: Constructor) returns (ok: bool, id: nat)
      modifies this`attempts
      ensures State() == old(State()).Attempted(c, fate)
      ensures ok == old(State()).NextWorks(fate) && id == |old(attempts)|
    {
      id := |attempts|;
      ok := fate.builds(id);
      attempts := attempts + [Attempt(c, ok)];
    }

    method InstallFlags()
      modifies this
      ensures State() == AdapterState.InstallFlags(old(State()))
    {
      if flagSet.None? {
        flagSet := Some(COMMAND_LINE);
      }
      if flagsAdded == [] {
        if options.None? {
          options := Some(DefaultOptions);
        }
        flagsAdded := flagsAdded + [flagSet.value];
      }
    }

    method Flags() returns (fs: FlagSet)
      modifies this
      ensures State() == AdapterState.InstallFlags(old(State()))
      ensures State().flagSet == Some(fs)
    {
      InstallFlags();
      fs := flagSet.value;
    }

    method ClientConfig() returns (r: Got<ClientConfig>)
      modifies this
      ensures (State(), r) == GetClientConfig(old(State()), fate)
    {
      if clientConfig.None? {
        var file := kubeConfigFile;
        var ok, id := Construct(NewClientConfig);
        if !ok {
          return Failed;
        }
        clientConfig := Some(AdapterState.ClientConfig.ClientConfig(id, file));
      }
      return Have(clientConfig.value);
    }

    method DiscoveryClient() returns (r: Got<DiscoveryClient>)
      modifies this
      ensures (State(), r) == GetDiscoveryClient(old(State()), fate)
    {
      if discoveryClient.None? {
        var c := ClientConfig();
        if !c.Have? {
          return Failed;
        }
        var ok, id := Construct(NewDiscoveryClient);
        if !ok {
          return Failed;
        }
        discoveryClient := Some(AdapterState.DiscoveryClient.DiscoveryClient(id, c.object_));
      }
      return Have(discoveryClient.value);
    }

    method RESTMapper() returns (r: Got<RestMapper>)
      modifies this
      ensures (State(), r) == GetRESTMapper(old(State()), fate)
    {
      if restMapper.None? {
        var d := DiscoveryClient();
        if !d.Have? {
          return Failed;
        }
        var ok, id := Construct(NewRestMapper);
        if !ok {
          return Failed;
        }
        restMapper := Some(RestMapper(id, d.object_, discoveryInterval));
      }
      return Have(restMapper.value);
    }

    method DynamicClient() returns (r: Got<DynamicClient>)
      modifies this
      ensures (State(), r) == GetDynamicClient(old(State()), fate)
    {
      if dynamicClient.None? {
        var c := ClientConfig();
        if !c.Have? {
          return Failed;
        }
        var ok, id := Construct(NewDynamicClient);
        if !ok {
          return Failed;
        }
        dynamicClient := Some(AdapterState.DynamicClient.DynamicClient(id, c.object_));
      }
      return Have(dynamicClient.value);
    }

    method WithCustomMetrics(p: Option<Provider>)
      modifies this`cmProvider
      ensures State() == old(State()).(cmProvider := p)
    {
      cmProvider := p;
    }

    method WithExternalMetrics(p: Option<Provider>)
      modifies this`emProvider
      ensures State() == old(State()).(emProvider := p)
    {
      emProvider := p;
    }

    method Informers() returns (r: Got<InformerFactory>)
      modifies this
      ensures (State(), r) == GetInformers(old(State()), fate)
    {
      if informers.None? {
        var c := ClientConfig();
        if !c.Have? {
          return Failed;
        }
        var ok, id := Construct(NewKubeClient);
        if !ok {
          return Failed;
        }
        informers := Some(InformerFactory(KubeClient(id, c.object_)));
      }
      return Have(informers.value);
    }

    method Config() returns (r: Got<ServerConfig>)
      modifies this
      ensures (State(), r) == GetConfig(old(State()), fate)
    {
      if config.None? {
        InstallFlags();
        if options.None? {
          return Panicked;
        }
        var ok, id := Construct(NewServerConfig);
        if !ok {
          return Failed;
        }
        config := Some(ServerConfig(id, options.value));
      }
      return Have(config.value);
    }

    method Server() returns (r: Got<Server>)
      modifies this
      ensures (State(), r) == GetServer(old(State()), fate)
    {
      if server.None? {
        var c := Config();
        if !c.Have? {
          return if c.Panicked? then Panicked else Failed;
        }
        if name == "" {
          name := DEFAULT_NAME;
        }
        var ok, id := Construct(NewServer);
        if !ok {
          return Failed;
        }
        server := Some(AdapterState.Server.Server(id, c.object_, name, informers, cmProvider, emProvider));
      }
      return Have(server.value);
    }

    method Run() returns (r: Got<Server>)
      modifies this
      ensures (State(), r) == RunServer(old(State()), fate)
    {
      r := Server();
      if r.Have? {
        var clean := fate.serves(|runs|);
        runs := runs + [r.object_];
        if !clean {
          r := Failed;
        }
      }
    }
  }
}
