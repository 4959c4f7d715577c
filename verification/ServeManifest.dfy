/**
 * Startup of a plugin from its manifest: the options are run, the manifest's declarations are
 * checked against the servers at hand, and the plugin set built from them registers the services.
 */
module ServeManifest {
  import opened Options
  import ConfigForm
  import M = Manifest
  import HostBroker

  datatype Service =
    | Runtime | MetadataProvider | ImageResolver | MarkerProvider | MediaAnalyzer | ScheduledTask
    | ScanSource | RequestRouter | EventConsumer | AuthProvider | AuthProviderChecks | NetworkIdentityAuth
    | HttpRoutes | WatchSyncProvider | NetworkAccessProvider | WatchSyncDeviceAuthorization
    | ConfigurationChecks

  /** The place of a service in the order of registration. */
  function Place(service: Service): nat {
    match service
    case Runtime => 0
    case MetadataProvider => 1
    case ImageResolver => 2
    case MarkerProvider => 3
    case MediaAnalyzer => 4
    case ScheduledTask => 5
    case ScanSource => 6
    case RequestRouter => 7
    case EventConsumer => 8
    case AuthProvider => 9
    case AuthProviderChecks => 10
    case NetworkIdentityAuth => 11
    case HttpRoutes => 12
    case WatchSyncProvider => 13
    case NetworkAccessProvider => 14
    case WatchSyncDeviceAuthorization => 15
    case ConfigurationChecks => 16
  }

  type ConfigureFunc = Option<nat>

  /**
   * A Go interface value: nil, a nil pointer of some type, or a server. A server is known by its
   * identity and the services its type implements.
   */
  datatype Server =
    | Absent
    | TypedNil(services: set<Service>)
    | Live(id: nat, services: set<Service>)
    | ManifestRuntime(manifest: M.PluginManifest, configure: ConfigureFunc)
  {
    predicate Implements(service: Service) {
      match this
      case Absent => false
      case ManifestRuntime(_, _) => service == Runtime
      case _ => service in services
    }
  }

  datatype CapabilityServers = CapabilityServers(
    runtime: Server, metadataProvider: Server, imageResolver: Server, markerProvider: Server,
    mediaAnalyzer: Server, scheduledTask: Server, scanSource: Server, requestRouter: Server,
    eventConsumer: Server, authProvider: Server, httpRoutes: Server, watchSyncProvider: Server,
    networkAccessProvider: Server)

  datatype OptionalServices = OptionalServices(
    watchSyncDeviceAuthorization: Server, authProviderChecks: Server, networkIdentityAuth: Server,
    configurationChecks: Server)

  const NO_SERVICES := OptionalServices(Absent, Absent, Absent, Absent)

  datatype ServeOption =
    | WithWatchSyncDeviceAuthorization(server: Server)
    | WithAuthProviderChecks(server: Server)
    | WithNetworkIdentityAuth(server: Server)
    | WithConfigurationChecks(server: Server)
    | WithConfigure(fn: ConfigureFunc)

  datatype PluginSet =
    | Default(servers: CapabilityServers)
    | Extended(servers: CapabilityServers, optional: OptionalServices)

  datatype Startup = Serving(servers: CapabilityServers, plugins: PluginSet) | Refused(missing: Service)

  // ----- Which server answers for a service

  predicate IsNilServer(server: Server) {
    server.Absent? || server.TypedNil?
  }

  function ResolveAuthService(auth: Server, explicit: Server, service: Service): Server {
    if !IsNilServer(explicit) then explicit
    else if auth.Implements(service) then auth
    else Absent
  }

  /** The server registered for each service; absent means the service is not registered. */
  function Provider(servers: CapabilityServers, optional: OptionalServices, service: Service): Server {
    match service
    case Runtime => servers.runtime
    case MetadataProvider => servers.metadataProvider
    case ImageResolver => servers.imageResolver
    case MarkerProvider => servers.markerProvider
    case MediaAnalyzer => servers.mediaAnalyzer
    case ScheduledTask => servers.scheduledTask
    case ScanSource => servers.scanSource
    case RequestRouter => servers.requestRouter
    case EventConsumer => servers.eventConsumer
    case AuthProvider => servers.authProvider
    case AuthProviderChecks => ResolveAuthService(servers.authProvider, optional.authProviderChecks, service)
    case NetworkIdentityAuth => ResolveAuthService(servers.authProvider, optional.networkIdentityAuth, service)
    case HttpRoutes => servers.httpRoutes
    case WatchSyncProvider => servers.watchSyncProvider
    case NetworkAccessProvider => servers.networkAccessProvider
    case WatchSyncDeviceAuthorization => optional.watchSyncDeviceAuthorization
    case ConfigurationChecks => optional.configurationChecks
  }

  function OptionalOf(plugins: PluginSet): OptionalServices {
    match plugins
    case Default(_) => NO_SERVICES
    case Extended(_, optional) => optional
  }

  predicate Registered(services: map<Service, Server>, plugins: PluginSet) {
    forall s :: var p := Provider(plugins.servers, OptionalOf(plugins), s);
      (s in services <==> !p.Absent?) && (s in services ==> services[s] == p)
  }

  // ----- What the manifest declares

  predicate Declares(m: M.PluginManifest, service: Service) {
    match service
    case AuthProviderChecks =>
      exists c <- m.capabilities :: M.SupportsConnectionTest(c) || M.UsesNetworkIdentity(c)
    case NetworkIdentityAuth => exists c <- m.capabilities :: M.UsesNetworkIdentity(c)
    case ConfigurationChecks => M.SupportsConfigurationCheck(m)
    case _ => false
  }

  /** The options as the plugin set gets them: a nil configuration checks server is dropped. */
  function Usable(optional: OptionalServices): OptionalServices {
    if IsNilServer(optional.configurationChecks) then optional.(configurationChecks := Absent) else optional
  }

  predicate Missing(m: M.PluginManifest, servers: CapabilityServers, optional: OptionalServices, service: Service) {
    Declares(m, service) && Provider(servers, Usable(optional), service).Absent?
  }

  predicate Accepts(m: M.PluginManifest, servers: CapabilityServers, optional: OptionalServices) {
    forall s :: !Missing(m, servers, optional, s)
  }

  // ----- The options

  datatype Resolved = Resolved(optional: OptionalServices, configure: ConfigureFunc)

  function Applied(r: Resolved, option: Option<ServeOption>): Resolved {
    if option.None? then r else
    match option.value
    case WithWatchSyncDeviceAuthorization(s) => r.(optional := r.optional.(watchSyncDeviceAuthorization := s))
    case WithAuthProviderChecks(s) => r.(optional := r.optional.(authProviderChecks := s))
    case WithNetworkIdentityAuth(s) => r.(optional := r.optional.(networkIdentityAuth := s))
    case WithConfigurationChecks(s) => r.(optional := r.optional.(configurationChecks := s))
    case WithConfigure(fn) => r.(configure := fn)
  }

  function ResolveOptions(options: seq<Option<ServeOption>>): Resolved {
    if options == [] then Resolved(NO_SERVICES, None)
    else Applied(ResolveOptions(options[..|options| - 1]), options[|options| - 1])
  }

  predicate SameKind(a: Option<ServeOption>, b: ServeOption) {
    a.Some? && match b
      case WithWatchSyncDeviceAuthorization(_) => a.value.WithWatchSyncDeviceAuthorization?
      case WithAuthProviderChecks(_) => a.value.WithAuthProviderChecks?
      case WithNetworkIdentityAuth(_) => a.value.WithNetworkIdentityAuth?
      case WithConfigurationChecks(_) => a.value.WithConfigurationChecks?
      case WithConfigure(_) => a.value.WithConfigure?
  }

  /** `r` holds what option `b` sets. */
  predicate Holds(r: Resolved, b: ServeOption) {
    match b
    case WithWatchSyncDeviceAuthorization(s) => r.optional.watchSyncDeviceAuthorization == s
    case WithAuthProviderChecks(s) => r.optional.authProviderChecks == s
    case WithNetworkIdentityAuth(s) => r.optional.networkIdentityAuth == s
    case WithConfigurationChecks(s) => r.optional.configurationChecks == s
    case WithConfigure(fn) => r.configure == fn
  }

  /** The last option of a kind decides, wherever it stands and whatever else is passed. */
  lemma {:induction false} LastOptionWins(options: seq<Option<ServeOption>>, i: nat)
    requires i < |options| && options[i].Some?
    requires forall j :: i < j < |options| ==> !SameKind(options[j], options[i].value)
    ensures Holds(ResolveOptions(options), options[i].value)
  {
    var k := |options| - 1;
    if i < k {
      LastOptionWins(options[..k], i);
      assert !SameKind(options[k], options[i].value);
    }
  }

  /** What no option sets stays empty. */
  lemma {:induction false} UnsetStaysEmpty(options: seq<Option<ServeOption>>, b: ServeOption)
    requires Holds(Resolved(NO_SERVICES, None), b)
    requires forall o <- options :: !SameKind(o, b)
    ensures Holds(ResolveOptions(options), b)
  {
    if options != [] {
      var k := |options| - 1;
      UnsetStaysEmpty(options[..k], b);
      assert options[k] in options && !SameKind(options[k], b);
    }
  }

  // ----- Main results

  function Launched(m: M.PluginManifest, servers: CapabilityServers, r: Resolved): PluginSet {
    PluginSetWithOptionalServices(servers.(runtime := ManifestRuntime(m, r.configure)), Usable(r.optional))
  }

  /**
   * Declared implies registered. Once validation and the startup check accept, every capability in
   * network mode stands without password and OAuth, comes with an overlay capability, and finds both
   * its services registered; so do a declared connection test and a declared configuration check.
   * The runtime registered is the one that serves this manifest.
   */
  lemma DeclaredIsRegistered(text: M.TextLibrary, m: M.PluginManifest, servers: CapabilityServers, r: Resolved,
                             services: map<Service, Server>)
    requires M.Valid(text, m) && Accepts(m, servers, r.optional)
    requires Registered(services, Launched(m, servers, r))
    ensures forall c <- m.capabilities :: M.UsesNetworkIdentity(c) ==>
              && M.PASSWORD !in c.authModes && M.OAUTH2 !in c.authModes
              && (exists d <- m.capabilities :: d.typ == M.NETWORK_ACCESS_PROVIDER)
              && NetworkIdentityAuth in services && AuthProviderChecks in services
    ensures forall c <- m.capabilities :: M.SupportsConnectionTest(c) ==> AuthProviderChecks in services
    ensures M.SupportsConfigurationCheck(m) ==>
              ConfigurationChecks in services && !IsNilServer(services[ConfigurationChecks])
    ensures Runtime in services && services[Runtime] == ManifestRuntime(m, r.configure)
  {
    hide M.Valid;
    AcceptedProviders(m, servers, r);
    forall c <- m.capabilities | M.UsesNetworkIdentity(c)
      ensures M.PASSWORD !in c.authModes && M.OAUTH2 !in c.authModes
      ensures exists d <- m.capabilities :: d.typ == M.NETWORK_ACCESS_PROVIDER
      ensures NetworkIdentityAuth in services && AuthProviderChecks in services
    {
      M.NetworkModeIsExclusive(text, m, c);
      assert Declares(m, NetworkIdentityAuth) && Declares(m, AuthProviderChecks);
    }
    forall c <- m.capabilities | M.SupportsConnectionTest(c) ensures AuthProviderChecks in services {
      assert Declares(m, AuthProviderChecks);
    }
  }

  /**
   * The last option of its kind is what gets served: a working server passed as an option answers for
   * its service, also where the auth provider could; a nil configuration checks server is dropped.
   */
  lemma LastOptionIsServed(m: M.PluginManifest, servers: CapabilityServers, options: seq<Option<ServeOption>>, i: nat,
                           services: map<Service, Server>)
    requires i < |options| && options[i].Some?
    requires forall j :: i < j < |options| ==> !SameKind(options[j], options[i].value)
    requires Registered(services, Launched(m, servers, ResolveOptions(options)))
    ensures match options[i].value
            case WithWatchSyncDeviceAuthorization(s) =>
              if s.Absent? then WatchSyncDeviceAuthorization !in services
              else Answers(services, WatchSyncDeviceAuthorization, s)
            case WithAuthProviderChecks(s) => !IsNilServer(s) ==> Answers(services, AuthProviderChecks, s)
            case WithNetworkIdentityAuth(s) => !IsNilServer(s) ==> Answers(services, NetworkIdentityAuth, s)
            case WithConfigurationChecks(s) =>
              if IsNilServer(s) then ConfigurationChecks !in services else Answers(services, ConfigurationChecks, s)
            case WithConfigure(fn) => Answers(services, Runtime, ManifestRuntime(m, fn))
  {
    hide ResolveOptions;
    LastOptionWins(options, i);
    var r := ResolveOptions(options);
    assert OptionalOf(Launched(m, servers, r)) == Usable(r.optional);
  }

  predicate Answers(services: map<Service, Server>, service: Service, server: Server) {
    service in services && services[service] == server
  }

  /** The check looks at the servers that registration will later use. */
  lemma AcceptedProviders(m: M.PluginManifest, servers: CapabilityServers, r: Resolved)
    requires Accepts(m, servers, r.optional)
    ensures var p := Launched(m, servers, r);
            forall s :: Declares(m, s) ==> !Provider(p.servers, OptionalOf(p), s).Absent?
  {
    var p := Launched(m, servers, r);
    assert OptionalOf(p) == Usable(r.optional);
    forall s | Declares(m, s) ensures !Provider(p.servers, OptionalOf(p), s).Absent? {
      assert !Missing(m, servers, r.optional, s);
    }
  }

  /** Absent, or a server for this service, as the field's or option's Go type makes sure. */
  predicate Typed(server: Server, service: Service) {
    server.Absent? || server.Implements(service)
  }

  predicate WellTyped(s: CapabilityServers, o: OptionalServices) {
    && Typed(s.runtime, Runtime) && Typed(s.metadataProvider, MetadataProvider)
    && Typed(s.imageResolver, ImageResolver) && Typed(s.markerProvider, MarkerProvider)
    && Typed(s.mediaAnalyzer, MediaAnalyzer) && Typed(s.scheduledTask, ScheduledTask)
    && Typed(s.scanSource, ScanSource) && Typed(s.requestRouter, RequestRouter)
    && Typed(s.eventConsumer, EventConsumer) && Typed(s.authProvider, AuthProvider)
    && Typed(s.httpRoutes, HttpRoutes) && Typed(s.watchSyncProvider, WatchSyncProvider)
    && Typed(s.networkAccessProvider, NetworkAccessProvider)
    && Typed(o.watchSyncDeviceAuthorization, WatchSyncDeviceAuthorization)
    && Typed(o.authProviderChecks, AuthProviderChecks) && Typed(o.networkIdentityAuth, NetworkIdentityAuth)
    && Typed(o.configurationChecks, ConfigurationChecks)
  }

  /** Every registered server implements the service it is registered for. */
  lemma RegisteredImplements(plugins: PluginSet, services: map<Service, Server>, s: Service)
    requires Registered(services, plugins) && s in services
    requires WellTyped(plugins.servers, OptionalOf(plugins))
    ensures services[s].Implements(s)
  {}

  /** The service is answered by this server if there is one, and not registered otherwise. */
  predicate AnswersIf(services: map<Service, Server>, service: Service, server: Server) {
    if server.Absent? then service !in services else Answers(services, service, server)
  }

  lemma AnswersByProvider(plugins: PluginSet, services: map<Service, Server>, s: Service)
    requires Registered(services, plugins)
    ensures AnswersIf(services, s, Provider(plugins.servers, OptionalOf(plugins), s))
  {
    hide Provider;
  }

  /** Each server is registered for its own service. */
  lemma EachUnderItsName(plugins: PluginSet, services: map<Service, Server>)
    requires Registered(services, plugins)
    ensures var s, o := plugins.servers, OptionalOf(plugins);
            && AnswersIf(services, Runtime, s.runtime) && AnswersIf(services, MetadataProvider, s.metadataProvider)
            && AnswersIf(services, ImageResolver, s.imageResolver)
            && AnswersIf(services, MarkerProvider, s.markerProvider)
            && AnswersIf(services, MediaAnalyzer, s.mediaAnalyzer)
            && AnswersIf(services, ScheduledTask, s.scheduledTask)
            && AnswersIf(services, ScanSource, s.scanSource) && AnswersIf(services, RequestRouter, s.requestRouter)
            && AnswersIf(services, EventConsumer, s.eventConsumer) && AnswersIf(services, AuthProvider, s.authProvider)
            && AnswersIf(services, HttpRoutes, s.httpRoutes)
            && AnswersIf(services, WatchSyncProvider, s.watchSyncProvider)
            && AnswersIf(services, NetworkAccessProvider, s.networkAccessProvider)
            && AnswersIf(services, WatchSyncDeviceAuthorization, o.watchSyncDeviceAuthorization)
            && AnswersIf(services, ConfigurationChecks, o.configurationChecks)
  {
    hide AnswersIf, Registered, ResolveAuthService, OptionalOf;
    AnswersByProvider(plugins, services, Runtime);
    AnswersByProvider(plugins, services, MetadataProvider);
    AnswersByProvider(plugins, services, ImageResolver);
    AnswersByProvider(plugins, services, MarkerProvider);
    AnswersByProvider(plugins, services, MediaAnalyzer);
    AnswersByProvider(plugins, services, ScheduledTask);
    AnswersByProvider(plugins, services, ScanSource);
    AnswersByProvider(plugins, services, RequestRouter);
    AnswersByProvider(plugins, services, EventConsumer);
    AnswersByProvider(plugins, services, AuthProvider);
    AnswersByProvider(plugins, services, HttpRoutes);
    AnswersByProvider(plugins, services, WatchSyncProvider);
    AnswersByProvider(plugins, services, NetworkAccessProvider);
    AnswersByProvider(plugins, services, WatchSyncDeviceAuthorization);
    AnswersByProvider(plugins, services, ConfigurationChecks);
  }

  /**
   * An auth service is answered by the working server passed as its option, else by the auth provider
   * if that implements it, else by none.
   */
  lemma AuthServicesExactly(plugins: PluginSet, services: map<Service, Server>)
    requires Registered(services, plugins)
    ensures var auth, o := plugins.servers.authProvider, OptionalOf(plugins);
            && AnswersIf(services, AuthProviderChecks,
                 if o.authProviderChecks.Live? || o.authProviderChecks.ManifestRuntime? then o.authProviderChecks
                 else if auth.Implements(AuthProviderChecks) then auth else Absent)
            && AnswersIf(services, NetworkIdentityAuth,
                 if o.networkIdentityAuth.Live? || o.networkIdentityAuth.ManifestRuntime? then o.networkIdentityAuth
                 else if auth.Implements(NetworkIdentityAuth) then auth else Absent)
  {
    hide AnswersIf, Registered, OptionalOf;
    AnswersByProvider(plugins, services, AuthProviderChecks);
    AnswersByProvider(plugins, services, NetworkIdentityAuth);
  }

  /**
   * What it takes to start: where a capability declares a connection test or network mode, a working
   * checks option or an auth provider that implements the checks; where one declares network mode, the
   * same for peer sign-in; and where the manifest declares a configuration check, a working option.
   */
  lemma StartsExactly(m: M.PluginManifest, servers: CapabilityServers, o: OptionalServices)
    ensures Accepts(m, servers, o) <==>
            && ((exists c <- m.capabilities :: c.typ == "auth_provider.v1" &&
                   (("connection_test" in c.metadata && c.metadata["connection_test"] == ConfigForm.BoolValue(true))
                    || "network" in c.authModes)) ==>
                 !IsNilServer(o.authProviderChecks) || servers.authProvider.Implements(AuthProviderChecks))
            && ((exists c <- m.capabilities :: c.typ == "auth_provider.v1" && "network" in c.authModes) ==>
                 !IsNilServer(o.networkIdentityAuth) || servers.authProvider.Implements(NetworkIdentityAuth))
            && ("configuration_check" in m.metadata
                && m.metadata["configuration_check"] == ConfigForm.BoolValue(true) ==>
                 !IsNilServer(o.configurationChecks))
  {
    assert forall s :: Declares(m, s) ==>
        s == AuthProviderChecks || s == NetworkIdentityAuth || s == ConfigurationChecks;
    assert Accepts(m, servers, o) <==>
           !Missing(m, servers, o, AuthProviderChecks) && !Missing(m, servers, o, NetworkIdentityAuth)
           && !Missing(m, servers, o, ConfigurationChecks);
    assert Declares(m, AuthProviderChecks) <==>
           exists c <- m.capabilities :: c.typ == "auth_provider.v1" &&
             (("connection_test" in c.metadata && c.metadata["connection_test"] == ConfigForm.BoolValue(true))
              || "network" in c.authModes);
  }

  /** The server the caller gave for a service, before any stands in for another. */
  function Explicit(servers: CapabilityServers, optional: OptionalServices, service: Service): Server {
    match service
    case AuthProviderChecks => optional.authProviderChecks
    case NetworkIdentityAuth => optional.networkIdentityAuth
    case _ => Provider(servers, optional, service)
  }

  /**
   * The nil pointer that gets through. The startup check treats a nil pointer passed as an option as
   * no server, but not a nil pointer passed as the auth provider: the two auth services are answered
   * by a nil pointer exactly when the auth provider is one, its type implements the service, and no
   * working server was passed as the option.
   */
  lemma NilAuthProviderPasses(m: M.PluginManifest, servers: CapabilityServers, r: Resolved,
                              services: map<Service, Server>, s: Service)
    requires Registered(services, Launched(m, servers, r))
    requires s == AuthProviderChecks || s == NetworkIdentityAuth
    ensures s in services && IsNilServer(services[s]) <==>
            && servers.authProvider.TypedNil? && s in servers.authProvider.services
            && IsNilServer(Explicit(servers, r.optional, s))
    ensures s in services && IsNilServer(services[s]) ==> !Missing(m, servers, r.optional, s)
  {
    assert OptionalOf(Launched(m, servers, r)) == Usable(r.optional);
  }

  /** A valid manifest in network mode that starts so, with nothing but a nil pointer behind it. */
  lemma NilAuthProviderStarts(text: M.TextLibrary, services: map<Service, Server>)
    requires M.TellsNetworkApart(text)
    requires Registered(services, Launched(M.EXAMPLE, OnlyAuth(NIL_AUTH), Resolved(NO_SERVICES, None)))
    ensures M.Valid(text, M.EXAMPLE) && M.UsesNetworkIdentity(M.EXAMPLE.capabilities[0])
    ensures Accepts(M.EXAMPLE, OnlyAuth(NIL_AUTH), NO_SERVICES)
    ensures Answers(services, AuthProviderChecks, NIL_AUTH) && Answers(services, NetworkIdentityAuth, NIL_AUTH)
  {
    M.ExampleIsValid(text);
    hide M.Valid;
    OnlyAuthStarts(NIL_AUTH, Resolved(NO_SERVICES, None));
  }

  const NIL_AUTH := TypedNil({AuthProvider, AuthProviderChecks, NetworkIdentityAuth})

  /** No server but an auth provider. */
  function OnlyAuth(auth: Server): CapabilityServers {
    CapabilityServers(
      Absent, Absent, Absent, Absent, Absent, Absent, Absent, Absent, Absent, auth, Absent, Absent, Absent)
  }

  /** An auth provider that implements both auth services is all the startup check asks for there. */
  lemma OnlyAuthStarts(auth: Server, r: Resolved)
    requires auth.Implements(AuthProviderChecks) && auth.Implements(NetworkIdentityAuth) && r.optional == NO_SERVICES
    ensures Accepts(M.EXAMPLE, OnlyAuth(auth), NO_SERVICES)
    ensures OptionalOf(Launched(M.EXAMPLE, OnlyAuth(auth), r)) == NO_SERVICES
  {
    forall s ensures !Missing(M.EXAMPLE, OnlyAuth(auth), NO_SERVICES, s) {}
  }

  /**
   * Startup checks four servers and no others: whatever is accepted is accepted still with the auth
   * provider and the three checked options alone. The overlay and the device authorization service
   * are registered exactly if the caller supplied them, whatever the manifest declares.
   */
  lemma OtherServersAreNotChecked(m: M.PluginManifest, servers: CapabilityServers, r: Resolved,
                                  services: map<Service, Server>)
    ensures Accepts(m, servers, r.optional) <==>
            Accepts(m, OnlyAuth(servers.authProvider), r.optional.(watchSyncDeviceAuthorization := Absent))
    ensures Registered(services, Launched(m, servers, r)) ==>
              && (NetworkAccessProvider in services <==> !servers.networkAccessProvider.Absent?)
              && (WatchSyncDeviceAuthorization in services <==> !r.optional.watchSyncDeviceAuthorization.Absent?)
  {
    var bare, optional := OnlyAuth(servers.authProvider), r.optional.(watchSyncDeviceAuthorization := Absent);
    forall s ensures Missing(m, bare, optional, s) <==> Missing(m, servers, r.optional, s) {}
    assert OptionalOf(Launched(m, servers, r)) == Usable(r.optional);
  }

  /**
   * A valid manifest that starts without two services it needs: the overlay that network mode
   * requires, and the device authorization that goes with DEVICE_CODE.
   */
  lemma StartsWithoutItsServices(text: M.TextLibrary, auth: Server, services: map<Service, Server>)
    requires M.TellsNetworkApart(text)
    requires auth.Implements(AuthProviderChecks) && auth.Implements(NetworkIdentityAuth)
    requires Registered(services, Launched(M.EXAMPLE, OnlyAuth(auth), Resolved(NO_SERVICES, None)))
    ensures M.Valid(text, M.EXAMPLE) && Accepts(M.EXAMPLE, OnlyAuth(auth), NO_SERVICES)
    ensures M.DeclaresOverlay(M.EXAMPLE) && M.DeclaresDeviceCode(M.EXAMPLE)
    ensures NetworkAccessProvider !in services && WatchSyncDeviceAuthorization !in services
  {
    M.ExampleIsValid(text);
    hide M.Valid, M.DeclaresOverlay, M.DeclaresDeviceCode, Accepts;
    OnlyAuthStarts(auth, Resolved(NO_SERVICES, None));
    M.ExampleDeclares();
  }

  // ----- The source's own form

  class ServeManifestOptions {
    var watchSyncDeviceAuthorization: Server
    var authProviderChecks: Server
    var networkIdentityAuth: Server
    var configurationChecks: Server
    var configure: ConfigureFunc

    function Value(): Resolved
      reads this
    {
      Resolved(OptionalServices(watchSyncDeviceAuthorization, authProviderChecks, networkIdentityAuth,
                                configurationChecks), configure)
    }

    constructor ()
      ensures Value() == Resolved(NO_SERVICES, None)
    {
      watchSyncDeviceAuthorization, authProviderChecks, networkIdentityAuth := Absent, Absent, Absent;
      configurationChecks := Absent;
      configure := None;
    }

    /** Runs one option closure. */
    method Apply(option: ServeOption)
      modifies this
      ensures Value() == Applied(old(Value()), Some(option))
    {
      match option
      case WithWatchSyncDeviceAuthorization(s) => watchSyncDeviceAuthorization := s;
      case WithAuthProviderChecks(s) => authProviderChecks := s;
      case WithNetworkIdentityAuth(s) => networkIdentityAuth := s;
      case WithConfigurationChecks(s) => configurationChecks := s;
      case WithConfigure(fn) => configure := fn;
    }
  }

  function PluginSetWithOptionalServices(servers: CapabilityServers, optional: OptionalServices): (p: PluginSet)
    ensures p.servers == servers && OptionalOf(p) == optional
  {
    if optional.watchSyncDeviceAuthorization.Absent? && optional.authProviderChecks.Absent? &&
       optional.networkIdentityAuth.Absent? && optional.configurationChecks.Absent?
    then Default(servers)
    else Extended(servers, optional)
  }

  /** One rule of the startup check: `needs` marks the capabilities that ask for the service. */
  method CheckRule(m: M.PluginManifest, registered: bool, needs: M.Capability -> bool) returns (ok: bool)
    ensures ok <==> registered || forall c <- m.capabilities :: !needs(c)
  {
    if registered {
      return true;
    }
    for i := 0 to |m.capabilities|
      invariant forall j :: 0 <= j < i ==> !needs(m.capabilities[j])
    {
      if needs(m.capabilities[i]) {
        return false;
      }
    }
    ok := true;
  }

  method RunOptions(options: seq<Option<ServeOption>>) returns (resolved: ServeManifestOptions)
    ensures fresh(resolved) && resolved.Value() == ResolveOptions(options)
  {
    resolved := new ServeManifestOptions();
    for i := 0 to |options|
      invariant resolved.Value() == ResolveOptions(options[..i])
    {
      assert options[..i + 1][..i] == options[..i];
      if options[i].Some? {
        resolved.Apply(options[i].value);
      }
    }
    assert options[..|options|] == options;
  }

  /** The rules on auth providers, in order; answers the first missing service. */
  method CheckAuthServices(m: M.PluginManifest, hasChecks: bool, hasNetwork: bool) returns (missing: Option<Service>)
    ensures missing == if Declares(m, AuthProviderChecks) && !hasChecks then Some(AuthProviderChecks)
                       else if Declares(m, NetworkIdentityAuth) && !hasNetwork then Some(NetworkIdentityAuth)
                       else None
  {
    var ok := CheckRule(m, hasChecks, c => M.SupportsConnectionTest(c));
    if !ok {
      var c :| c in m.capabilities && M.SupportsConnectionTest(c);
      return Some(AuthProviderChecks);
    }
    ok := CheckRule(m, hasChecks, c => M.UsesNetworkIdentity(c));
    if !ok {
      var c :| c in m.capabilities && M.UsesNetworkIdentity(c);
      return Some(AuthProviderChecks);
    }
    ok := CheckRule(m, hasNetwork, c => M.UsesNetworkIdentity(c));
    if !ok {
      var c :| c in m.capabilities && M.UsesNetworkIdentity(c);
      return Some(NetworkIdentityAuth);
    }
    missing := None;
  }

  /** Refuses exactly when a declared service has no server, and names the first one missing. */
  method ManifestServeConfig(m: M.PluginManifest, servers: CapabilityServers, options: seq<Option<ServeOption>>)
    returns (result: Startup)
    ensures result.Serving? <==> Accepts(m, servers, ResolveOptions(options).optional)
    ensures result.Serving? ==>
              var p := Launched(m, servers, ResolveOptions(options));
              result == Serving(p.servers, p)
    ensures result.Refused? ==>
              && Missing(m, servers, ResolveOptions(options).optional, result.missing)
              && (result.missing != AuthProviderChecks ==>
                   !Missing(m, servers, ResolveOptions(options).optional, AuthProviderChecks))
              && (result.missing == ConfigurationChecks ==>
                   !Missing(m, servers, ResolveOptions(options).optional, NetworkIdentityAuth))
  {
    hide ResolveOptions;
    var resolved := RunOptions(options);
    ghost var r := resolved.Value();
    var checks := ResolveAuthService(servers.authProvider, resolved.authProviderChecks, AuthProviderChecks);
    var network := ResolveAuthService(servers.authProvider, resolved.networkIdentityAuth, NetworkIdentityAuth);
    var missing := CheckAuthServices(m, !checks.Absent?, !network.Absent?);
    if missing.Some? {
      assert Missing(m, servers, r.optional, missing.value);
      return Refused(missing.value);
    }
    if IsNilServer(resolved.configurationChecks) {
      resolved.configurationChecks := Absent;
    }
    assert resolved.Value().optional == Usable(r.optional);
    if M.SupportsConfigurationCheck(m) && resolved.configurationChecks.Absent? {
      assert Missing(m, servers, r.optional, ConfigurationChecks);
      return Refused(ConfigurationChecks);
    }
    var served := servers.(runtime := ManifestRuntime(m, resolved.configure));
    result := Serving(served, PluginSetWithOptionalServices(served, resolved.Value().optional));
  }

  /** A gRPC server's table of services. Registering one twice is fatal there. */
  class GrpcServer {
    var services: map<Service, Server>

    constructor ()
      ensures services == map[]
    {
      services := map[];
    }

    method Register(service: Service, server: Server)
      requires service !in services
      modifies this
      ensures services == old(services)[service := server]
    {
      services := services[service := server];
    }

    /** The `if server != nil` around most registrations; services placed earlier are dealt with. */
    method RegisterIfPresent(service: Service, server: Server, ghost plugins: PluginSet)
      requires RegisteredBelow(services, plugins, Place(service))
      requires server == Provider(plugins.servers, OptionalOf(plugins), service)
      modifies this
      ensures RegisteredBelow(services, plugins, Place(service) + 1)
    {
      hide Provider;
      if !server.Absent? {
        Register(service, server);
      }
    }
  }

  predicate RegisteredBelow(services: map<Service, Server>, plugins: PluginSet, n: nat) {
    forall s :: var p := Provider(plugins.servers, OptionalOf(plugins), s);
      (s in services <==> Place(s) < n && !p.Absent?) && (s in services ==> services[s] == p)
  }

  lemma RuntimeFirst(p: PluginSet)
    requires !p.servers.runtime.Absent?
    ensures RegisteredBelow(map[][Runtime := p.servers.runtime], p, 1)
  {
    hide ResolveAuthService;
  }

  method RegisterEarlier(server: GrpcServer, servers: CapabilityServers, optional: OptionalServices)
    requires server.services == map[] && !servers.runtime.Absent?
    modifies server
    ensures RegisteredBelow(server.services, Extended(servers, optional), Place(EventConsumer))
  {
    hide RegisteredBelow;
    ghost var p := Extended(servers, optional);
    server.Register(Runtime, servers.runtime);
    RuntimeFirst(p);
    server.RegisterIfPresent(MetadataProvider, servers.metadataProvider, p);
    server.RegisterIfPresent(ImageResolver, servers.imageResolver, p);
    server.RegisterIfPresent(MarkerProvider, servers.markerProvider, p);
    server.RegisterIfPresent(MediaAnalyzer, servers.mediaAnalyzer, p);
    server.RegisterIfPresent(ScheduledTask, servers.scheduledTask, p);
    server.RegisterIfPresent(ScanSource, servers.scanSource, p);
    server.RegisterIfPresent(RequestRouter, servers.requestRouter, p);
  }

  method RegisterLater(server: GrpcServer, servers: CapabilityServers, optional: OptionalServices)
    requires RegisteredBelow(server.services, Extended(servers, optional), Place(EventConsumer))
    modifies server
    ensures RegisteredBelow(server.services, Extended(servers, optional), Place(WatchSyncDeviceAuthorization))
  {
    hide RegisteredBelow;
    ghost var p := Extended(servers, optional);
    server.RegisterIfPresent(EventConsumer, servers.eventConsumer, p);
    server.RegisterIfPresent(AuthProvider, servers.authProvider, p);
    var checks := ResolveAuthService(servers.authProvider, optional.authProviderChecks, AuthProviderChecks);
    server.RegisterIfPresent(AuthProviderChecks, checks, p);
    var network := ResolveAuthService(servers.authProvider, optional.networkIdentityAuth, NetworkIdentityAuth);
    server.RegisterIfPresent(NetworkIdentityAuth, network, p);
    server.RegisterIfPresent(HttpRoutes, servers.httpRoutes, p);
    server.RegisterIfPresent(WatchSyncProvider, servers.watchSyncProvider, p);
    server.RegisterIfPresent(NetworkAccessProvider, servers.networkAccessProvider, p);
  }

  method RegisterServers(host: HostBroker.PluginHostState, broker: Option<HostBroker.BrokerRef>, server: GrpcServer,
                         servers: CapabilityServers, optional: OptionalServices)
    returns (ok: bool)
    requires server.services == map[]
    modifies host, server
    ensures host.State() == HostBroker.Next(old(host.State()), HostBroker.Step.SetBroker(broker))
    ensures ok <==> !servers.runtime.Absent?
    ensures !ok ==> server.services == map[]
    ensures ok ==> RegisteredBelow(server.services, Extended(servers, optional), Place(WatchSyncDeviceAuthorization))
  {
    host.SetBroker(broker);
    if servers.runtime.Absent? {
      return false;
    }
    RegisterEarlier(server, servers, optional);
    RegisterLater(server, servers, optional);
    ok := true;
  }

  /** Registers exactly the services that have a server, each once. */
  method GRPCServer(plugins: PluginSet, host: HostBroker.PluginHostState, broker: Option<HostBroker.BrokerRef>,
                    server: GrpcServer)
    returns (ok: bool)
    requires server.services == map[]
    modifies host, server
    ensures host.State() == HostBroker.Next(old(host.State()), HostBroker.Step.SetBroker(broker))
    ensures ok <==> !plugins.servers.runtime.Absent?
    ensures if ok then Registered(server.services, plugins) else server.services == map[]
  {
    var optional := OptionalOf(plugins);
    ok := RegisterServers(host, broker, server, plugins.servers, optional);
    if !ok {
      return;
    }
    ghost var p := Extended(plugins.servers, optional);
    if plugins.Extended? {
      server.RegisterIfPresent(WatchSyncDeviceAuthorization, optional.watchSyncDeviceAuthorization, p);
      server.RegisterIfPresent(ConfigurationChecks, optional.configurationChecks, p);
    }
  }

  /** A plugin served from its manifest always has a runtime, so its registration goes through. */
  method Serve(m: M.PluginManifest, servers: CapabilityServers, options: seq<Option<ServeOption>>,
               host: HostBroker.PluginHostState, broker: Option<HostBroker.BrokerRef>)
    returns (started: bool, server: GrpcServer)
    modifies host
    ensures fresh(server)
    ensures started <==> Accepts(m, servers, ResolveOptions(options).optional)
    ensures if started then Registered(server.services, Launched(m, servers, ResolveOptions(options)))
            else server.services == map[]
  {
    server := new GrpcServer();
    var startup := ManifestServeConfig(m, servers, options);
    if startup.Refused? {
      return false, server;
    }
    started := GRPCServer(startup.plugins, host, broker, server);
  }
}
