/**
 Serving a manifest: options are resolved, a startup check compares the manifest with the servers
 there will be, and three layers of plugin register the services.  A server is told apart from a
 nil pointer in an interface, because Go tells them apart and the code has to.
 */
module ServeWiring {
  import opened Descriptors
  import opened Lists
  import opened Wrappers

  datatype Service =
    | RuntimeService | MetadataProvider | ImageResolver | MarkerProvider | MediaAnalyzer | ScheduledTask | ScanSource
    | RequestRouterService | EventConsumer | AuthProviderService | HttpRoutes | WatchSyncProvider
    | NetworkAccessProvider | AuthProviderChecks | NetworkIdentityAuth | WatchSyncDeviceAuthorization | StorageProvider

  /** A ConfigureFunc, told apart from others. */
  type Callback = nat

  /** An interface value: nil, a nil pointer of some type, a live server, or the runtime server that
      ServeManifest installs; a type may implement further services beside the one it is used for.
      registers is false when the generated registration panics: it calls a method promoted from the
      embedded Unimplemented server, through a pointer that is nil. */
  datatype Server =
    | Nil
    | NilPointer(implements: set<Service>, registers: bool)
    | Live(name: string, implements: set<Service>, registers: bool)
    | ManifestRuntime(configure: Option<Callback>)

  predicate Implements(server: Server, s: Service) {
    match server
    case Nil => false
    case ManifestRuntime(_) => s == RuntimeService
    case _ => s in server.implements
  }

  predicate Panics(server: Server) { (server.NilPointer? || server.Live?) && !server.registers }

  /** CapabilityServers: the fields that are set, by service. */
  type Servers = map<Service, Server>

  function Field(servers: Servers, s: Service): Server { if s in servers then servers[s] else Nil }

  datatype Optional = Optional(deviceAuthorization: Server, checks: Server, network: Server)

  const NO_OPTIONAL := Optional(Nil, Nil, Nil)

  /** The plugin set entry: the default plugin, or a wrapper around one. */
  datatype Plugin =
    | DefaultPlugin(servers: Servers)
    | WithOptional(servers: Servers, optional: Optional)
    | WithStorage(inner: Plugin, storage: Server)

  datatype Options = Options(optional: Optional, storage: Server, configure: Option<Callback>)

  const NO_OPTIONS := Options(NO_OPTIONAL, Nil, None)

  /** ServeManifestOption: a closure that sets one field. */
  datatype ServeOption =
    | SetStorage(server: Server)
    | SetDeviceAuthorization(server: Server)
    | SetChecks(server: Server)
    | SetNetwork(server: Server)
    | SetConfigure(callback: Option<Callback>)

  /** isNilServer. */
  predicate IsNilServer(s: Server) { s.Nil? || s.NilPointer? }

  /** resolveAuthService: the explicit server, else the auth provider when it implements the service. */
  function ResolveAuthService(authProvider: Server, explicit: Server, service: Service): Server {
    if !IsNilServer(explicit) then explicit
    else if Implements(authProvider, service) then authProvider
    else Nil
  }

  function PluginSetWithOptionalServices(servers: Servers, optional: Optional): Plugin {
    if optional == NO_OPTIONAL then DefaultPlugin(servers) else WithOptional(servers, optional)
  }

  function ManifestPluginSet(servers: Servers, options: Options): Plugin {
    var plugin := PluginSetWithOptionalServices(servers, options.optional);
    if options.storage != Nil then WithStorage(plugin, options.storage) else plugin
  }

  // ---------- what a plugin serves ----------

  /** What the layers of a plugin hold between them. */
  datatype Wiring = Wiring(servers: Servers, optional: Optional, storage: Server)

  function WiringOf(p: Plugin): Wiring {
    match p
    case DefaultPlugin(servers) => Wiring(servers, NO_OPTIONAL, Nil)
    case WithOptional(servers, optional) => Wiring(servers, optional, Nil)
    case WithStorage(inner, storage) => WiringOf(inner).(storage := storage)
  }

  /** The wrapper for storage is only put around a plugin that has none. */
  predicate WellLayered(p: Plugin) { p.WithStorage? ==> !p.inner.WithStorage? && p.storage != Nil }

  /** The server that answers a service, Nil when none does. */
  function Serves(w: Wiring, s: Service): Server {
    match s
    case AuthProviderChecks => ResolveAuthService(Field(w.servers, AuthProviderService), w.optional.checks, s)
    case NetworkIdentityAuth => ResolveAuthService(Field(w.servers, AuthProviderService), w.optional.network, s)
    case WatchSyncDeviceAuthorization => w.optional.deviceAuthorization
    case StorageProvider => w.storage
    case _ => Field(w.servers, s)
  }

  // ---------- registration ----------

  /** grpc.Server: registering a service twice is fatal, so it is a precondition here. */
  class GrpcServer {
    var registry: map<Service, Server>

    constructor ()
      ensures registry == map[]
    {
      registry := map[];
    }

    /** The generated registration; not ok means that it panicked. */
    method Register(service: Service, server: Server) returns (ok: bool)
      requires service !in registry
      modifies this
      ensures ok <==> !Panics(server)
      ensures registry == if ok then old(registry)[service := server] else old(registry)
    {
      ok := !Panics(server);
      if ok {
        registry := registry[service := server];
      }
    }
  }

  /** The order in which a plugin gets to its services. */
  function Rank(s: Service): nat {
    match s
    case RuntimeService => 0
    case MetadataProvider => 1
    case ImageResolver => 2
    case MarkerProvider => 3
    case MediaAnalyzer => 4
    case ScheduledTask => 5
    case ScanSource => 6
    case RequestRouterService => 7
    case EventConsumer => 8
    case AuthProviderService => 9
    case AuthProviderChecks => 10
    case NetworkIdentityAuth => 11
    case HttpRoutes => 12
    case WatchSyncProvider => 13
    case NetworkAccessProvider => 14
    case WatchSyncDeviceAuthorization => 15
    case StorageProvider => 16
  }

  /** Registering what answers the service panics. */
  predicate Bad(w: Wiring, s: Service) { Panics(Serves(w, s)) }

  /** The registry holds what is served among the first n services, none of them bad, and nothing else. */
  predicate ServesFirst(registry: map<Service, Server>, w: Wiring, n: nat) {
    && (forall s: Service :: s in registry <==> Rank(s) < n && Serves(w, s) != Nil)
    && (forall s | s in registry :: registry[s] == Serves(w, s))
    && (forall s: Service :: Rank(s) < n ==> !Bad(w, s))
  }

  /** The first bad service, in the order of registration. */
  predicate FirstBad(w: Wiring, s: Service) { Bad(w, s) && forall t: Service :: Rank(t) < Rank(s) ==> !Bad(w, t) }

  /** Registration went on to rank n, or panicked at the first bad service before. */
  predicate Reached(panic: Option<Service>, registry: map<Service, Server>, w: Wiring, n: nat) {
    match panic
    case None => ServesFirst(registry, w, n)
    case Some(s) => Rank(s) < n && FirstBad(w, s)
  }

  lemma OnlyNext(service: Service)
    ensures forall s: Service :: Rank(s) < Rank(service) + 1 <==> Rank(s) < Rank(service) || s == service
  {
  }

  lemma NextServed(registry: map<Service, Server>, w: Wiring, service: Service)
    requires ServesFirst(registry, w, Rank(service)) && !Bad(w, service)
    ensures var impl := Serves(w, service);
            ServesFirst(if impl == Nil then registry else registry[service := impl], w, Rank(service) + 1)
  {
    OnlyNext(service);
    var impl := Serves(w, service);
    var after := if impl == Nil then registry else registry[service := impl];
    forall s: Service
      ensures s in after <==> Rank(s) < Rank(service) + 1 && Serves(w, s) != Nil
      ensures s in after ==> after[s] == Serves(w, s)
    {
    }
  }

  /** One guarded registration, of the service that comes next. */
  method RegisterUnlessNil(server: GrpcServer, service: Service, impl: Server, ghost w: Wiring)
    returns (panic: Option<Service>)
    requires ServesFirst(server.registry, w, Rank(service)) && impl == Serves(w, service)
    modifies server
    ensures Reached(panic, server.registry, w, Rank(service) + 1)
  {
    if impl != Nil {
      ghost var before := server.registry;
      var ok := server.Register(service, impl);
      if !ok {
        return Some(service);
      }
      NextServed(before, w, service);
    } else {
      NextServed(server.registry, w, service);
    }
    return None;
  }

  /** The services are those of CapabilityServers fields and come one after another from rank first. */
  predicate InOrder(order: seq<Service>, first: nat) {
    forall i | 0 <= i < |order| :: Rank(order[i]) == first + i && IsField(order[i])
  }

  predicate IsField(s: Service) {
    Rank(s) < Rank(WatchSyncDeviceAuthorization) && s != AuthProviderChecks && s != NetworkIdentityAuth
  }

  /** The guarded registrations of CapabilityServers fields, in the order given. */
  method RegisterFields(server: GrpcServer, servers: Servers, order: seq<Service>, ghost w: Wiring, ghost first: nat)
    returns (panic: Option<Service>)
    requires ServesFirst(server.registry, w, first) && w.servers == servers
    requires InOrder(order, first)
    modifies server
    ensures Reached(panic, server.registry, w, first + |order|)
  {
    for i := 0 to |order|
      invariant ServesFirst(server.registry, w, first + i)
    {
      assert Serves(w, order[i]) == Field(servers, order[i]);
      panic := RegisterUnlessNil(server, order[i], Field(servers, order[i]), w);
      if panic.Some? {
        return;
      }
    }
    return None;
  }

  method RegisterFirstFields(server: GrpcServer, servers: Servers, ghost w: Wiring) returns (panic: Option<Service>)
    requires server.registry == map[] && w.servers == servers
    modifies server
    ensures Reached(panic, server.registry, w, Rank(AuthProviderChecks))
  {
    var order := [RuntimeService, MetadataProvider, ImageResolver, MarkerProvider, MediaAnalyzer, ScheduledTask,
                  ScanSource, RequestRouterService, EventConsumer, AuthProviderService];
    assert InOrder(order, 0) && |order| == 10;
    panic := RegisterFields(server, servers, order, w, 0);
  }

  method RegisterLastFields(server: GrpcServer, servers: Servers, ghost w: Wiring) returns (panic: Option<Service>)
    requires ServesFirst(server.registry, w, Rank(HttpRoutes)) && w.servers == servers
    modifies server
    ensures Reached(panic, server.registry, w, Rank(WatchSyncDeviceAuthorization))
  {
    var order := [HttpRoutes, WatchSyncProvider, NetworkAccessProvider];
    assert InOrder(order, 12) && |order| == 3;
    panic := RegisterFields(server, servers, order, w, 12);
  }

  /** The two services kept out of AuthProviderServer. */
  method RegisterAuthServices(server: GrpcServer, servers: Servers, optional: Optional, ghost w: Wiring)
    returns (panic: Option<Service>)
    requires ServesFirst(server.registry, w, Rank(AuthProviderChecks))
    requires w.servers == servers && w.optional == optional
    modifies server
    ensures Reached(panic, server.registry, w, Rank(HttpRoutes))
  {
    var authProvider := Field(servers, AuthProviderService);
    var checks := ResolveAuthService(authProvider, optional.checks, AuthProviderChecks);
    panic := RegisterUnlessNil(server, AuthProviderChecks, checks, w);
    if panic.Some? {
      return;
    }
    var network := ResolveAuthService(authProvider, optional.network, NetworkIdentityAuth);
    panic := RegisterUnlessNil(server, NetworkIdentityAuth, network, w);
  }

  /** How serving a plugin ends. */
  datatype Outcome = Served | NoRuntime | Panicked(service: Service)

  /** Serving got as far as rank n, stopped before anything for want of a runtime server, or panicked
      at the first bad service. */
  predicate Ends(o: Outcome, registry: map<Service, Server>, w: Wiring, n: nat) {
    match o
    case Served => Serves(w, RuntimeService) != Nil && ServesFirst(registry, w, n)
    case NoRuntime => Serves(w, RuntimeService) == Nil && registry == map[]
    case Panicked(s) => Serves(w, RuntimeService) != Nil && Rank(s) < n && FirstBad(w, s)
  }

  function After(panic: Option<Service>): Outcome { if panic.Some? then Panicked(panic.value) else Served }

  /** registerServers. */
  method RegisterServers(servers: Servers, optional: Optional, server: GrpcServer, ghost w: Wiring)
    returns (o: Outcome)
    requires server.registry == map[] && w.servers == servers && w.optional == optional
    modifies server
    ensures Ends(o, server.registry, w, Rank(WatchSyncDeviceAuthorization))
  {
    if Field(servers, RuntimeService) == Nil {
      return NoRuntime;
    }
    var panic := RegisterFirstFields(server, servers, w);
    if panic.None? {
      panic := RegisterAuthServices(server, servers, optional, w);
    }
    if panic.None? {
      panic := RegisterLastFields(server, servers, w);
    }
    return After(panic);
  }

  lemma PlainWiring(p: Plugin, w: Wiring)
    requires !p.WithStorage? && w == WiringOf(p).(storage := w.storage)
    ensures w.servers == p.servers && w.optional == if p.WithOptional? then p.optional else NO_OPTIONAL
  {
  }

  /** GRPCServer of the default plugin and of the wrapper for optional services. */
  method GrpcServePlain(p: Plugin, server: GrpcServer, ghost w: Wiring) returns (o: Outcome)
    requires server.registry == map[] && !p.WithStorage? && w == WiringOf(p).(storage := w.storage)
    modifies server
    ensures Ends(o, server.registry, w, Rank(StorageProvider))
  {
    var optional := if p.WithOptional? then p.optional else NO_OPTIONAL;
    PlainWiring(p, w);
    o := RegisterServers(p.servers, optional, server, w);
    if o.Served? {
      var panic := RegisterUnlessNil(server, WatchSyncDeviceAuthorization, optional.deviceAuthorization, w);
      o := After(panic);
    }
  }

  /** The registry of a plugin that served: one entry for each service it has a server for. */
  predicate ServesAll(registry: map<Service, Server>, w: Wiring) {
    && (forall s: Service :: s in registry <==> Serves(w, s) != Nil)
    && (forall s | s in registry :: registry[s] == Serves(w, s))
  }

  // ---------- what a registry holds ----------

  /** The server is registered for the service, or nothing is when there is none. */
  predicate RegisteredAs(registry: map<Service, Server>, s: Service, server: Server) {
    if server == Nil then s !in registry else s in registry && registry[s] == server
  }

  /** The option given for an auth service counts: it is a server and no nil pointer. */
  predicate Counts(explicit: Server) { explicit.Live? || explicit.ManifestRuntime? }

  /** An auth service goes to the server given for it, else to the auth provider that implements it. */
  predicate AuthRegisteredAs(registry: map<Service, Server>, s: Service, servers: Servers, explicit: Server) {
    if Counts(explicit) then s in registry && registry[s] == explicit
    else if AuthProviderService in servers && Implements(servers[AuthProviderService], s) then
      s in registry && registry[s] == servers[AuthProviderService]
    else s !in registry
  }

  /** The services kept out of CapabilityServers. */
  const OPTIONAL_SERVICES: set<Service> :=
    {AuthProviderChecks, NetworkIdentityAuth, WatchSyncDeviceAuthorization, StorageProvider}

  /** The registry holds each server of the fields under its own service, the device authorization and
      storage servers under theirs, and the auth services as above. */
  predicate AsWired(registry: map<Service, Server>, servers: Servers, optional: Optional, storage: Server) {
    && (forall s: Service :: s !in OPTIONAL_SERVICES ==>
          RegisteredAs(registry, s, if s in servers then servers[s] else Nil))
    && RegisteredAs(registry, WatchSyncDeviceAuthorization, optional.deviceAuthorization)
    && RegisteredAs(registry, StorageProvider, storage)
    && AuthRegisteredAs(registry, AuthProviderChecks, servers, optional.checks)
    && AuthRegisteredAs(registry, NetworkIdentityAuth, servers, optional.network)
  }

  lemma RegistryIsAsWired(registry: map<Service, Server>, w: Wiring)
    requires ServesAll(registry, w)
    ensures AsWired(registry, w.servers, w.optional, w.storage)
  {
    forall s: Service | s !in OPTIONAL_SERVICES
      ensures Serves(w, s) == if s in w.servers then w.servers[s] else Nil
    {
    }
  }

  /** None of the servers that would be registered panics as it is. */
  predicate NonePanics(servers: Servers, optional: Optional, storage: Server) {
    && (forall s: Service :: s !in OPTIONAL_SERVICES && s in servers ==> !Panics(servers[s]))
    && !Panics(optional.deviceAuthorization) && !Panics(storage)
    && (Counts(optional.checks) ==> !Panics(optional.checks))
    && (Counts(optional.network) ==> !Panics(optional.network))
  }

  lemma NoneIsBad(w: Wiring)
    ensures (forall s: Service :: !Bad(w, s)) <==> NonePanics(w.servers, w.optional, w.storage)
  {
    assert Bad(w, WatchSyncDeviceAuthorization) <==> Panics(w.optional.deviceAuthorization);
    assert Bad(w, StorageProvider) <==> Panics(w.storage);
    AuthServiceBad(w, AuthProviderChecks, w.optional.checks);
    AuthServiceBad(w, NetworkIdentityAuth, w.optional.network);
    forall s: Service | s !in OPTIONAL_SERVICES
      ensures Bad(w, s) <==> s in w.servers && Panics(w.servers[s])
    {
    }
  }

  lemma AuthServiceBad(w: Wiring, s: Service, explicit: Server)
    requires (s == AuthProviderChecks && explicit == w.optional.checks)
             || (s == NetworkIdentityAuth && explicit == w.optional.network)
    ensures Counts(explicit) ==> (Bad(w, s) <==> Panics(explicit))
    ensures !Counts(explicit) && Bad(w, s) ==> Bad(w, AuthProviderService)
  {
  }

  /** GRPCServer of any plugin set entry: unless there is no runtime server or registering one of the
      servers panics, it registers exactly what the plugin serves. */
  method GrpcServe(p: Plugin, server: GrpcServer) returns (o: Outcome)
    requires server.registry == map[] && WellLayered(p)
    modifies server
    ensures o == NoRuntime <==> Serves(WiringOf(p), RuntimeService) == Nil
    ensures o == Served <==> !o.NoRuntime? && forall s: Service :: !Bad(WiringOf(p), s)
    ensures o.Panicked? ==> FirstBad(WiringOf(p), o.service)
    ensures o == Served ==> ServesAll(server.registry, WiringOf(p))
    ensures o == Served ==> AsWired(server.registry, WiringOf(p).servers, WiringOf(p).optional, WiringOf(p).storage)
    ensures o == NoRuntime ==> server.registry == map[]
  {
    ghost var w := WiringOf(p);
    if p.WithStorage? {
      o := GrpcServePlain(p.inner, server, w);
      if o.Served? {
        var panic := RegisterUnlessNil(server, StorageProvider, p.storage, w);
        o := After(panic);
      }
    } else {
      o := GrpcServePlain(p, server, w);
      assert !Bad(w, StorageProvider);
    }
    if o.Served? {
      RegistryIsAsWired(server.registry, w);
    }
  }

  // ---------- the startup check ----------

  /** The loop that applies the options; a nil option is skipped and the last of a kind wins. */
  method Resolve(options: seq<Option<ServeOption>>) returns (resolved: Options)
    ensures resolved == Resolved(options)
  {
    resolved := NO_OPTIONS;
    for i := 0 to |options|
      invariant resolved == Resolved(options[..i])
    {
      assert options[..i + 1][..i] == options[..i];
      if options[i].None? {
        continue;
      }
      match options[i].value
      case SetStorage(server) => resolved := resolved.(storage := server);
      case SetDeviceAuthorization(server) =>
        resolved := resolved.(optional := resolved.optional.(deviceAuthorization := server));
      case SetChecks(server) => resolved := resolved.(optional := resolved.optional.(checks := server));
      case SetNetwork(server) => resolved := resolved.(optional := resolved.optional.(network := server));
      case SetConfigure(callback) => resolved := resolved.(configure := callback);
    }
    assert options[..|options|] == options;
  }

  function Apply(o: Options, option: Option<ServeOption>): Options {
    match option
    case None => o
    case Some(SetStorage(server)) => o.(storage := server)
    case Some(SetDeviceAuthorization(server)) => o.(optional := o.optional.(deviceAuthorization := server))
    case Some(SetChecks(server)) => o.(optional := o.optional.(checks := server))
    case Some(SetNetwork(server)) => o.(optional := o.optional.(network := server))
    case Some(SetConfigure(callback)) => o.(configure := callback)
  }

  function Resolved(options: seq<Option<ServeOption>>): Options {
    if options == [] then NO_OPTIONS else Apply(Resolved(options[..|options| - 1]), options[|options| - 1])
  }

  predicate IsStorage(o: Option<ServeOption>) { o.Some? && o.value.SetStorage? }

  predicate IsDeviceAuthorization(o: Option<ServeOption>) { o.Some? && o.value.SetDeviceAuthorization? }

  predicate IsChecks(o: Option<ServeOption>) { o.Some? && o.value.SetChecks? }

  predicate IsNetwork(o: Option<ServeOption>) { o.Some? && o.value.SetNetwork? }

  /** The server of the last option of a kind, Nil without one. */
  function LastServer(options: seq<Option<ServeOption>>, kind: Option<ServeOption> -> bool): Server
    requires forall o: Option<ServeOption> :: kind(o) ==> o.Some? && !o.value.SetConfigure?
  {
    var k := LastIndex(options, kind);
    if k < 0 then Nil else options[k].value.server
  }

  lemma OneOptionMore(front: seq<Option<ServeOption>>, o: Option<ServeOption>, kind: Option<ServeOption> -> bool)
    requires forall o: Option<ServeOption> :: kind(o) ==> o.Some? && !o.value.SetConfigure?
    ensures LastServer(front + [o], kind) == if kind(o) then o.value.server else LastServer(front, kind)
  {
    LastIndexSnoc(front, o, kind);
  }

  predicate IsConfigure(o: Option<ServeOption>) { o.Some? && o.value.SetConfigure? }

  /** The callback of the last configure option, None without one. */
  function LastCallback(options: seq<Option<ServeOption>>): Option<Callback> {
    var k := LastIndex(options, IsConfigure);
    if k < 0 then None else options[k].value.callback
  }

  lemma OneCallbackMore(front: seq<Option<ServeOption>>, o: Option<ServeOption>)
    ensures LastCallback(front + [o]) == if IsConfigure(o) then o.value.callback else LastCallback(front)
  {
    LastIndexSnoc(front, o, IsConfigure);
  }

  /** Each kind of option is settled by the last one of that kind; the others and nil do not matter. */
  lemma {:induction false} LastOptionWins(options: seq<Option<ServeOption>>)
    ensures Resolved(options).storage == LastServer(options, IsStorage)
    ensures Resolved(options).optional.deviceAuthorization == LastServer(options, IsDeviceAuthorization)
    ensures Resolved(options).optional.checks == LastServer(options, IsChecks)
    ensures Resolved(options).optional.network == LastServer(options, IsNetwork)
    ensures Resolved(options).configure == LastCallback(options)
  {
    if options != [] {
      var front, last := options[..|options| - 1], options[|options| - 1];
      LastOptionWins(front);
      OneMoreOption(front, last);
      assert options == front + [last];
    }
  }

  lemma OneMoreOption(front: seq<Option<ServeOption>>, last: Option<ServeOption>)
    ensures var o, options := Resolved(front), front + [last];
            && LastServer(options, IsStorage)
               == (if IsStorage(last) then last.value.server else LastServer(front, IsStorage))
            && LastServer(options, IsDeviceAuthorization)
               == (if IsDeviceAuthorization(last) then last.value.server
                   else LastServer(front, IsDeviceAuthorization))
            && LastServer(options, IsChecks)
               == (if IsChecks(last) then last.value.server else LastServer(front, IsChecks))
            && LastServer(options, IsNetwork)
               == (if IsNetwork(last) then last.value.server else LastServer(front, IsNetwork))
            && LastCallback(options) == (if IsConfigure(last) then last.value.callback else LastCallback(front))
            && Resolved(options) == Apply(o, last)
  {
    OneOptionMore(front, last, IsStorage);
    OneOptionMore(front, last, IsDeviceAuthorization);
    OneOptionMore(front, last, IsChecks);
    OneOptionMore(front, last, IsNetwork);
    OneCallbackMore(front, last);
    assert (front + [last])[..|front|] == front;
  }

  /** The plugin that is served when the startup check passes. */
  function PluginFor(servers: Servers, options: seq<Option<ServeOption>>): Plugin {
    ManifestPluginSet(WithRuntime(servers, Resolved(options)), Resolved(options))
  }

  function WithRuntime(servers: Servers, options: Options): Servers {
    servers[RuntimeService := ManifestRuntime(options.configure)]
  }

  function WiringFor(servers: Servers, options: seq<Option<ServeOption>>): Wiring {
    WiringOf(PluginFor(servers, options))
  }

  /** Some capability declares what only the service can answer. */
  predicate Declares(capabilities: seq<Descriptor>, s: Service) {
    match s
    case AuthProviderChecks => exists d | d in capabilities :: SupportsConnectionTest(d) || UsesNetworkIdentity(d)
    case NetworkIdentityAuth => exists d | d in capabilities :: UsesNetworkIdentity(d)
    case _ => false
  }

  /** Someone answers an auth service: the server given for it, or the auth provider. */
  predicate HasAuthServer(servers: Servers, explicit: Server, s: Service) {
    Counts(explicit) || (AuthProviderService in servers && Implements(servers[AuthProviderService], s))
  }

  predicate SignsInFromNetwork(d: Descriptor) { d.kind == "auth_provider.v1" && "network" in d.authModes }

  predicate AnnouncesTest(d: Descriptor) {
    && d.kind == "auth_provider.v1" && d.metadata.Some? && "connection_test" in d.metadata.value
    && d.metadata.value["connection_test"] == BoolValue(true)
  }

  /** An auth provider announces a connection test or signs people in from the network, and nobody
      answers what that takes: checks for both, network identity besides for the latter. */
  predicate StartupRefused(capabilities: seq<Descriptor>, servers: Servers, options: seq<Option<ServeOption>>) {
    var checks := HasAuthServer(servers, LastServer(options, IsChecks), AuthProviderChecks);
    var network := HasAuthServer(servers, LastServer(options, IsNetwork), NetworkIdentityAuth);
    exists d | d in capabilities ::
      (AnnouncesTest(d) && !checks) || (SignsInFromNetwork(d) && !(checks && network))
  }

  lemma DeclaredInWords(capabilities: seq<Descriptor>)
    ensures Declares(capabilities, AuthProviderChecks)
            <==> exists d | d in capabilities :: AnnouncesTest(d) || SignsInFromNetwork(d)
    ensures Declares(capabilities, NetworkIdentityAuth) <==> exists d | d in capabilities :: SignsInFromNetwork(d)
  {
    assert forall d: Descriptor :: SupportsConnectionTest(d) <==> AnnouncesTest(d);
    assert forall d: Descriptor :: UsesNetworkIdentity(d) <==> SignsInFromNetwork(d);
  }

  lemma AuthServers(servers: Servers, options: seq<Option<ServeOption>>)
    ensures Serves(WiringFor(servers, options), AuthProviderChecks) != Nil
            <==> HasAuthServer(servers, LastServer(options, IsChecks), AuthProviderChecks)
    ensures Serves(WiringFor(servers, options), NetworkIdentityAuth) != Nil
            <==> HasAuthServer(servers, LastServer(options, IsNetwork), NetworkIdentityAuth)
  {
    ResolvedServices(servers, options);
    LastOptionWins(options);
  }

  lemma CheckedMeans(capabilities: seq<Descriptor>, w: Wiring)
    ensures Checked(capabilities, w)
            <==> && (Declares(capabilities, AuthProviderChecks) ==> Serves(w, AuthProviderChecks) != Nil)
                 && (Declares(capabilities, NetworkIdentityAuth) ==> Serves(w, NetworkIdentityAuth) != Nil)
  {
  }

  lemma RefusedExactly(capabilities: seq<Descriptor>, servers: Servers, options: seq<Option<ServeOption>>)
    ensures Checked(capabilities, WiringFor(servers, options)) <==> !StartupRefused(capabilities, servers, options)
  {
    CheckedMeans(capabilities, WiringFor(servers, options));
    DeclaredInWords(capabilities);
    AuthServers(servers, options);
  }

  /** manifestServeConfig: the plugin, or None for a startup error. */
  method ManifestServeConfig(capabilities: seq<Descriptor>, servers: Servers, options: seq<Option<ServeOption>>)
    returns (r: Option<Plugin>)
    ensures r.Some? ==> r.value == PluginFor(servers, options)
    ensures r.Some? <==> Checked(capabilities, WiringFor(servers, options))
    ensures r.None? <==> StartupRefused(capabilities, servers, options)
  {
    RefusedExactly(capabilities, servers, options);
    var resolved := Resolve(options);
    ResolvedServices(servers, options);
    var authProvider := Field(servers, AuthProviderService);
    var hasChecks := ResolveAuthService(authProvider, resolved.optional.checks, AuthProviderChecks) != Nil;
    var hasNetwork := ResolveAuthService(authProvider, resolved.optional.network, NetworkIdentityAuth) != Nil;
    if !hasChecks && exists d | d in capabilities :: SupportsConnectionTest(d) {
      assert Declares(capabilities, AuthProviderChecks);
      return None;
    }
    if !hasChecks && exists d | d in capabilities :: UsesNetworkIdentity(d) {
      assert Declares(capabilities, AuthProviderChecks);
      return None;
    }
    if !hasNetwork && exists d | d in capabilities :: UsesNetworkIdentity(d) {
      assert Declares(capabilities, NetworkIdentityAuth);
      return None;
    }
    return Some(ManifestPluginSet(WithRuntime(servers, resolved), resolved));
  }

  /** What the startup check resolves is what the plugin set resolves when it registers, in each of
      its layers, although the plain plugin drops the options altogether. */
  lemma ResolvedServices(servers: Servers, options: seq<Option<ServeOption>>)
    ensures WellLayered(PluginFor(servers, options))
    ensures WiringFor(servers, options)
            == Wiring(WithRuntime(servers, Resolved(options)), Resolved(options).optional, Resolved(options).storage)
  {
    var plain := PluginSetWithOptionalServices(WithRuntime(servers, Resolved(options)), Resolved(options).optional);
    assert WiringOf(plain) == Wiring(WithRuntime(servers, Resolved(options)), Resolved(options).optional, Nil);
  }

  /** The startup check passes: every declared auth service has a server. */
  predicate Checked(capabilities: seq<Descriptor>, w: Wiring) {
    forall s: Service :: Declares(capabilities, s) ==> Serves(w, s) != Nil
  }

  /** The optional servers the options leave in place. */
  function LastOptional(options: seq<Option<ServeOption>>): Optional {
    Optional(LastServer(options, IsDeviceAuthorization), LastServer(options, IsChecks), LastServer(options, IsNetwork))
  }

  lemma RuntimeNeverPanics(servers: Servers, options: seq<Option<ServeOption>>)
    ensures (forall s: Service :: !Bad(WiringFor(servers, options), s))
            <==> NonePanics(servers - {RuntimeService}, LastOptional(options), LastServer(options, IsStorage))
  {
    var w := WiringFor(servers, options);
    ResolvedServices(servers, options);
    LastOptionWins(options);
    NoneIsBad(w);
    assert forall s: Service :: s in w.servers && s != RuntimeService <==> s in servers - {RuntimeService};
    assert !Panics(w.servers[RuntimeService]);
  }

  /** The startup check agrees with registration.  The plugin starts exactly when the check passes and
      no server panics as it is registered; then every service there is a server for is registered,
      those the manifest's auth providers declare among them, and the runtime server passes
      Configure to the callback of the last configure option.  Register's precondition shows that
      none is added twice. */
  method ServeManifest(capabilities: seq<Descriptor>, servers: Servers, options: seq<Option<ServeOption>>,
                       server: GrpcServer)
    returns (started: bool)
    requires server.registry == map[]
    modifies server
    ensures started <==> && !StartupRefused(capabilities, servers, options)
                         && NonePanics(servers - {RuntimeService}, LastOptional(options),
                                       LastServer(options, IsStorage))
    ensures started ==>
              AsWired(server.registry, servers[RuntimeService := ManifestRuntime(LastCallback(options))],
                      LastOptional(options), LastServer(options, IsStorage))
    ensures started ==> forall s: Service :: Declares(capabilities, s) ==> s in server.registry
  {
    RefusedExactly(capabilities, servers, options);
    var plugin := ManifestServeConfig(capabilities, servers, options);
    if plugin.None? {
      return false;
    }
    ResolvedServices(servers, options);
    LastOptionWins(options);
    RuntimeNeverPanics(servers, options);
    var outcome := GrpcServe(plugin.value, server);
    started := outcome.Served?;
  }

  /** The service that answers is a nil pointer only when the auth provider itself is one: a nil
      pointer passed as an option counts as no server. */
  lemma OnlyAuthProviderCanBeNilPointer(w: Wiring, s: Service)
    requires s in {AuthProviderChecks, NetworkIdentityAuth}
    ensures Serves(w, s).NilPointer? <==>
              && IsNilServer(if s == AuthProviderChecks then w.optional.checks else w.optional.network)
              && Field(w.servers, AuthProviderService).NilPointer?
              && Implements(Field(w.servers, AuthProviderService), s)
  {
  }
}
