/** What a user set reaches what is built, and every run serves: the adapter over whole sequences of calls. */
module AdapterHistory {
  import opened Results
  import opened AdapterState
  import opened AdapterRuns

  // ----- serving -----

  /** `Run` runs the server whenever there is one, and then answers with the outcome of that run. */
  lemma RunServes(a: Adapter, fate: Fate)
    ensures var server := Apply(a, ForServer, fate);
            var run := Apply(a, ToRun, fate);
            && (server.1.Have? ==>
                  && server.1.object_.AServer?
                  && run.0.runs == a.runs + [server.1.object_.server]
                  && run.0.server == Some(server.1.object_.server)
                  && (run.1 == server.1 <==> fate.serves(|a.runs|))
                  && (run.1 == Failed <==> !fate.serves(|a.runs|)))
            && (!server.1.Have? ==> run == server && run.0.runs == a.runs)
  {
    hide GetConfig;
    ConfigLeavesServer(a, fate);
  }

  lemma ConfigLeavesServer(a: Adapter, fate: Fate)
    ensures GetConfig(a, fate).0.runs == a.runs && GetConfig(a, fate).0.server == a.server
  {
  }

  /** The calls of `Run` at which a server could be had. */
  function Served(a: Adapter, calls: seq<Call>, fate: Fate): nat
    decreases |calls|
  {
    if calls == [] then 0
    else (if calls[0].ToRun? && Apply(a, ForServer, fate).1.Have? then 1 else 0)
         + Served(Apply(a, calls[0], fate).0, calls[1..], fate)
  }

  predicate OneServer(a: Adapter) {
    forall i :: 0 <= i < |a.runs| ==> a.server == Some(a.runs[i])
  }

  lemma OtherCallsRunNothing(a: Adapter, c: Call, fate: Fate)
    requires !c.ToRun?
    ensures Apply(a, c, fate).0.runs == a.runs
  {
    hide GetClientConfig, GetDiscoveryClient, GetConfig;
    ConfigLeavesServer(a, fate);
    ClientsRunNothing(a, fate);
  }

  lemma ClientsRunNothing(a: Adapter, fate: Fate)
    ensures GetClientConfig(a, fate).0.runs == a.runs && GetDiscoveryClient(a, fate).0.runs == a.runs
  {
  }

  lemma CallServes(a: Adapter, c: Call, fate: Fate)
    requires OneServer(a)
    ensures var b := Apply(a, c, fate).0;
            && OneServer(b)
            && |b.runs| == |a.runs| + (if c.ToRun? && Apply(a, ForServer, fate).1.Have? then 1 else 0)
  {
    hide Apply, Wired, BuiltOnce;
    ApplyGrows(a, c, fate);
    if c.ToRun? {
      RunServes(a, fate);
      ApplyGrows(a, ForServer, fate);
    } else {
      OtherCallsRunNothing(a, c, fate);
    }
  }

  lemma {:induction false} CallsServe(a: Adapter, calls: seq<Call>, fate: Fate)
    requires OneServer(a)
    ensures OneServer(ApplyAll(a, calls, fate))
    ensures |ApplyAll(a, calls, fate).runs| == |a.runs| + Served(a, calls, fate)
    decreases |calls|
  {
    hide Apply, OneServer;
    if calls != [] {
      CallServes(a, calls[0], fate);
      CallsServe(Apply(a, calls[0], fate).0, calls[1..], fate);
    }
  }

  /** Over any calls on a new adapter the server was run once for each `Run` at which it could be had, and it is the
      same one every time. */
  lemma EveryRunServes(calls: seq<Call>, fate: Fate)
    ensures var a := ApplyAll(NEW, calls, fate);
            |a.runs| == Served(NEW, calls, fate) && forall i :: 0 <= i < |a.runs| ==> a.server == Some(a.runs[i])
  {
    CallsServe(NEW, calls, fate);
  }

  // ----- what is built carries what was set -----

  /** Options a user set, or the default ones. */
  function OptionsOf(a: Adapter): Options {
    if a.options.Some? then a.options.value else DefaultOptions
  }

  /** Between two states around a call: what is newly built carries the fields of the moment. */
  predicate CarriesFields(a: Adapter, b: Adapter) {
    && (a.clientConfig.None? && b.clientConfig.Some? ==> b.clientConfig.value.kubeConfigFile == a.kubeConfigFile)
    && (a.restMapper.None? && b.restMapper.Some? ==> b.restMapper.value.interval == a.discoveryInterval)
    && (a.config.None? && b.config.Some? ==> b.config.value.options == OptionsOf(a))
  }

  lemma ClientConfigCarries(a: Adapter, fate: Fate)
    ensures var b := GetClientConfig(a, fate).0;
            && (a.clientConfig.None? && b.clientConfig.Some? ==> b.clientConfig.value.kubeConfigFile == a.kubeConfigFile)
            && b.discoveryInterval == a.discoveryInterval && b.restMapper == a.restMapper && b.config == a.config
  {
  }

  lemma DiscoveryClientCarries(a: Adapter, fate: Fate)
    ensures var b := GetDiscoveryClient(a, fate).0;
            && (a.clientConfig.None? && b.clientConfig.Some? ==> b.clientConfig.value.kubeConfigFile == a.kubeConfigFile)
            && b.discoveryInterval == a.discoveryInterval && b.restMapper == a.restMapper && b.config == a.config
  {
    hide GetClientConfig;
    ClientConfigCarries(a, fate);
  }

  lemma ConfigCarries(a: Adapter, fate: Fate)
    ensures var b := GetConfig(a, fate).0;
            && (a.config.None? && b.config.Some? ==> b.config.value.options == OptionsOf(a))
            && b.clientConfig == a.clientConfig && b.restMapper == a.restMapper
  {
  }

  lemma ClientsCarry(a: Adapter, c: Call, fate: Fate)
    requires ForClients(c)
    ensures CarriesFields(a, Apply(a, c, fate).0)
  {
    hide GetClientConfig, GetDiscoveryClient, GetConfig, GetServer, InstallFlags, RunServer;
    ClientConfigCarries(a, fate);
    DiscoveryClientCarries(a, fate);
  }

  lemma OthersCarry(a: Adapter, c: Call, fate: Fate)
    requires !ForClients(c)
    ensures CarriesFields(a, Apply(a, c, fate).0)
  {
    hide GetClientConfig, GetDiscoveryClient, GetRESTMapper, GetDynamicClient, GetInformers, GetConfig;
    ConfigCarries(a, fate);
  }

  /** Whatever is built at a call carries the kubeconfig file, discovery interval and options of the moment of the call. */
  lemma BuiltFromFields(a: Adapter, c: Call, fate: Fate)
    ensures CarriesFields(a, Apply(a, c, fate).0)
  {
    hide Apply, CarriesFields;
    if ForClients(c) {
      ClientsCarry(a, c, fate);
    } else {
      OthersCarry(a, c, fate);
    }
  }

  // ----- what a user set stays set -----

  /** The last assignments among some calls. */
  datatype Settings = Settings(kubeConfigFile: string, discoveryInterval: int, options: Options,
                               custom: Option<Provider>, external: Option<Provider>)

  function SettingsOf(a: Adapter): Settings {
    Settings(a.kubeConfigFile, a.discoveryInterval, OptionsOf(a), a.cmProvider, a.emProvider)
  }

  function Assigned(s: Settings, calls: seq<Call>): Settings {
    if calls == [] then s
    else
      var before := Assigned(s, calls[..|calls| - 1]);
      match calls[|calls| - 1]
      case SetKubeConfigFile(file) => before.(kubeConfigFile := file)
      case SetDiscoveryInterval(interval) => before.(discoveryInterval := interval)
      case SetOptions(Some(options)) => before.(options := options)
      case SetOptions(None) => before.(options := DefaultOptions)
      case WithCustomMetrics(p) => before.(custom := p)
      case WithExternalMetrics(p) => before.(external := p)
      case _ => before
  }

  lemma GettersKeepSettings(a: Adapter, fate: Fate)
    ensures SettingsOf(GetClientConfig(a, fate).0) == SettingsOf(a)
    ensures SettingsOf(GetDiscoveryClient(a, fate).0) == SettingsOf(a)
    ensures SettingsOf(InstallFlags(a)) == SettingsOf(a)
  {
  }

  lemma ConfigKeepsSettings(a: Adapter, fate: Fate)
    ensures SettingsOf(GetConfig(a, fate).0) == SettingsOf(a)
  {
    hide InstallFlags, GetClientConfig, GetDiscoveryClient;
    GettersKeepSettings(a, fate);
  }

  lemma ClientsAssignNothing(a: Adapter, c: Call, fate: Fate)
    requires ForClients(c)
    ensures SettingsOf(Apply(a, c, fate).0) == SettingsOf(a)
  {
    hide GetClientConfig, GetDiscoveryClient, GetConfig, GetServer, InstallFlags, RunServer;
    GettersKeepSettings(a, fate);
  }

  lemma ServerAssignsNothing(a: Adapter, c: Call, fate: Fate)
    requires c.ForConfig? || c.ForServer? || c.ToRun? || c.Flags?
    ensures SettingsOf(Apply(a, c, fate).0) == SettingsOf(a)
  {
    hide GetClientConfig, GetDiscoveryClient, GetRESTMapper, GetDynamicClient, GetInformers, GetConfig, InstallFlags;
    GettersKeepSettings(a, fate);
    ConfigKeepsSettings(a, fate);
  }

  lemma OthersAssign(a: Adapter, c: Call, fate: Fate)
    requires !Getter(c) && !c.ToRun? && !c.Flags?
    ensures SettingsOf(Apply(a, c, fate).0) == Assigned(SettingsOf(a), [c])
  {
    NothingAssigned(SettingsOf(a));
  }

  lemma CallAssigns(a: Adapter, c: Call, fate: Fate)
    ensures SettingsOf(Apply(a, c, fate).0) == Assigned(SettingsOf(a), [c])
  {
    hide Apply, SettingsOf;
    if ForClients(c) {
      ClientsAssignNothing(a, c, fate);
      NothingAssigned(SettingsOf(a));
    } else if c.ForConfig? || c.ForServer? || c.ToRun? || c.Flags? {
      ServerAssignsNothing(a, c, fate);
      NothingAssigned(SettingsOf(a));
    } else {
      OthersAssign(a, c, fate);
    }
  }

  lemma {:induction false} AssignedInTurn(s: Settings, c: Call, calls: seq<Call>)
    ensures Assigned(Assigned(s, [c]), calls) == Assigned(s, [c] + calls)
  {
    if calls == [] {
      assert [c] + calls == [c];
    } else {
      var n := |calls| - 1;
      AssignedInTurn(s, c, calls[..n]);
      assert ([c] + calls)[..n + 1] == [c] + calls[..n];
    }
  }

  /** Only assignments change the settings: after any calls each is the one assigned last. */
  lemma {:induction false} SettingsAfter(a: Adapter, calls: seq<Call>, fate: Fate)
    ensures SettingsOf(ApplyAll(a, calls, fate)) == Assigned(SettingsOf(a), calls)
    decreases |calls|
  {
    hide Apply, SettingsOf, Assigned;
    if calls == [] {
      NothingAssigned(SettingsOf(a));
    } else {
      CallAssigns(a, calls[0], fate);
      SettingsAfter(Apply(a, calls[0], fate).0, calls[1..], fate);
      AssignedInTurn(SettingsOf(a), calls[0], calls[1..]);
      assert [calls[0]] + calls[1..] == calls;
    }
  }

  lemma NothingAssigned(s: Settings)
    ensures Assigned(s, []) == s
  {
  }

  /** After any calls on a new adapter, what a call newly builds carries the settings assigned last, and a server the
      providers assigned last. */
  lemma BuiltFromLastAssigned(calls: seq<Call>, c: Call, fate: Fate)
    ensures var a := ApplyAll(NEW, calls, fate);
            var b := Apply(a, c, fate).0;
            var s := Assigned(Settings("", 0, DefaultOptions, None, None), calls);
            && (a.clientConfig.None? && b.clientConfig.Some? ==> b.clientConfig.value.kubeConfigFile == s.kubeConfigFile)
            && (a.restMapper.None? && b.restMapper.Some? ==> b.restMapper.value.interval == s.discoveryInterval)
            && (a.config.None? && b.config.Some? ==> b.config.value.options == s.options)
            && (a.server.None? && b.server.Some? ==>
                  b.server.value.customMetrics == s.custom && b.server.value.externalMetrics == s.external)
  {
    hide Apply, ApplyAll, Assigned;
    var a := ApplyAll(NEW, calls, fate);
    SettingsAfter(NEW, calls, fate);
    BuiltFromFields(a, c, fate);
    ServerCarries(a, c, fate);
  }

  lemma ServerCarries(a: Adapter, c: Call, fate: Fate)
    ensures var b := Apply(a, c, fate).0;
            a.server.None? && b.server.Some? ==>
              b.server.value.customMetrics == a.cmProvider && b.server.value.externalMetrics == a.emProvider
  {
    hide GetClientConfig, GetDiscoveryClient, GetConfig;
    ServerOfOthers(a, fate);
  }

  lemma ServerOfOthers(a: Adapter, fate: Fate)
    ensures GetClientConfig(a, fate).0.server == a.server && GetDiscoveryClient(a, fate).0.server == a.server
    ensures var b := GetConfig(a, fate).0;
            b.server == a.server && b.cmProvider == a.cmProvider && b.emProvider == a.emProvider
  {
  }
}
