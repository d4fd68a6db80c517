/**
 * `AppiumServerManager`: one local Appium service, built by the constructor, started and stopped
 * on request. The service is a configuration and a `running` flag; starting always succeeds.
 */
module AppiumServerManager {
  import opened Results

  datatype ServiceConfig = ServiceConfig(ipAddress: string, port: int, sessionOverride: bool, logLevel: string)

  /** What the constructor asks the service builder for. */
  const ConstructorConfig: ServiceConfig := ServiceConfig("127.0.0.1", 4723, true, "info")

  datatype Service = Service(config: ServiceConfig, running: bool)

  /** The manager's one field; `None` is a `null` service. */
  datatype ServerManager = ServerManager(service: Option<Service>)

  /** What an operation did to the service, in order. */
  datatype Event = Built(config: ServiceConfig) | Started | Stopped

  /** Calling a method on a `null` service. */
  datatype Fault = NullService

  /** The constructor: builds a service with `ConstructorConfig` and does not start it. */
  function NewServerManager(): (m: ServerManager)
    ensures m.service.Some? && !m.service.value.running
    ensures m.service.value.config == ServiceConfig("127.0.0.1", 4723, true, "info")
  {
    ServerManager(Some(Service(ConstructorConfig, false)))
  }

  predicate IsRunning(m: ServerManager) {
    m.service.Some? && m.service.value.running
  }

  /**
   * `startServer`: starts a service that is not running; a running one is left alone (it is not
   * restarted). The `null` test guards nothing: a missing service is dereferenced anyway.
   */
  function StartServer(m: ServerManager): (r: Result<(ServerManager, seq<Event>), Fault>)
    ensures m.service.None? <==> r.Err?
    ensures IsRunning(m) ==> r == Ok((m, []))
    ensures m.service.Some? && !IsRunning(m) ==>
      r == Ok((ServerManager(Some(Service(m.service.value.config, true))), [Started]))
  {
    match m.service
    case None => Err(NullService)
    case Some(s) =>
      if !s.running then Ok((ServerManager(Some(Service(s.config, true))), [Started]))
      else Ok((m, []))
  }

  /**
   * `startService`: builds a default service only when there is none, then starts the service
   * only when it is not running. The default configuration is the library's and a parameter here.
   */
  function StartService(m: ServerManager, defaultConfig: ServiceConfig): (r: (ServerManager, seq<Event>))
    ensures IsRunning(r.0)
    ensures m.service.None? ==> r == (ServerManager(Some(Service(defaultConfig, true))), [Built(defaultConfig), Started])
    ensures m.service.Some? ==> r.0.service.value.config == m.service.value.config
    ensures m.service.Some? ==> (Started in r.1 <==> !IsRunning(m)) && Built(defaultConfig) !in r.1
    ensures m.service.Some? ==> r.1 == if IsRunning(m) then [] else [Started]
  {
    assert [Built(defaultConfig)] + [Started] == [Built(defaultConfig), Started];
    var (s, built) := if m.service.None? then (Service(defaultConfig, false), [Built(defaultConfig)])
                      else (m.service.value, []);
    if !s.running then (ServerManager(Some(Service(s.config, true))), built + [Started])
    else (ServerManager(Some(s)), built)
  }

  /** `stopServer`: stops the service exactly when there is one and it is running. */
  function StopServer(m: ServerManager): (r: (ServerManager, seq<Event>))
    ensures !IsRunning(r.0)
    ensures IsRunning(m) ==> r == (ServerManager(Some(Service(m.service.value.config, false))), [Stopped])
    ensures !IsRunning(m) ==> r == (m, [])
  {
    if m.service.Some? && m.service.value.running then
      (ServerManager(Some(Service(m.service.value.config, false))), [Stopped])
    else (m, [])
  }

  /** `getServerUrl`: the service's URL while it is running, `null` otherwise. `urlOf` stands for the library's `getUrl`. */
  function GetServerUrl(m: ServerManager, urlOf: ServiceConfig -> string): (r: Option<string>)
    ensures r.Some? <==> IsRunning(m)
    ensures r.Some? ==> r.value == urlOf(m.service.value.config)
  {
    if m.service.Some? && m.service.value.running then Some(urlOf(m.service.value.config)) else None
  }

  /** Starting twice is starting once; stopping twice is stopping once. */
  lemma StartStopIdempotent(m: ServerManager, defaultConfig: ServiceConfig)
    ensures StartServer(m).Ok? ==> StartServer(StartServer(m).value.0) == Ok((StartServer(m).value.0, []))
    ensures StartService(StartService(m, defaultConfig).0, defaultConfig) == (StartService(m, defaultConfig).0, [])
    ensures StopServer(StopServer(m).0) == (StopServer(m).0, [])
  {
  }

  /** A URL is available right after any successful start and never right after a stop. */
  lemma UrlFollowsLifecycle(m: ServerManager, defaultConfig: ServiceConfig, urlOf: ServiceConfig -> string)
    ensures StartServer(m).Ok? ==> GetServerUrl(StartServer(m).value.0, urlOf) == Some(urlOf(m.service.value.config))
    ensures GetServerUrl(StartService(m, defaultConfig).0, urlOf).Some?
    ensures GetServerUrl(StopServer(m).0, urlOf) == None
  {
  }

  // ---------------------------------------------------------------------------------------------
  // Any sequence of calls on a constructed manager
  // ---------------------------------------------------------------------------------------------

  datatype Call = CallStartServer | CallStartService | CallStopServer

  /** Applies the calls in order; the first fault ends the run. */
  function RunCalls(m: ServerManager, calls: seq<Call>, defaultConfig: ServiceConfig): Result<ServerManager, Fault>
    decreases |calls|
  {
    if calls == [] then Ok(m)
    else
      var next: Result<ServerManager, Fault> :=
        match calls[0]
        case CallStartServer => (match StartServer(m) case Ok(p) => Ok(p.0) case Err(f) => Err(f))
        case CallStartService => Ok(StartService(m, defaultConfig).0)
        case CallStopServer => Ok(StopServer(m).0);
      match next
      case Err(f) => Err(f)
      case Ok(m') => RunCalls(m', calls[1..], defaultConfig)
  }

  /** Every call keeps a present service present and its configuration unchanged. */
  lemma {:induction false} CallsKeepService(m: ServerManager, calls: seq<Call>, defaultConfig: ServiceConfig)
    requires m.service.Some?
    ensures RunCalls(m, calls, defaultConfig).Ok?
    ensures RunCalls(m, calls, defaultConfig).value.service.Some?
    ensures RunCalls(m, calls, defaultConfig).value.service.value.config == m.service.value.config
    decreases |calls|
  {
    if calls != [] {
      var m' := match calls[0]
        case CallStartServer => StartServer(m).value.0
        case CallStartService => StartService(m, defaultConfig).0
        case CallStopServer => StopServer(m).0;
      assert m'.service.Some? && m'.service.value.config == m.service.value.config;
      CallsKeepService(m', calls[1..], defaultConfig);
    }
  }

  /**
   * On a manager built by the constructor no call ever meets a `null` service, and the service
   * keeps the constructor's configuration whatever the library default is.
   */
  lemma ConstructedManagerKeepsItsConfig(calls: seq<Call>, defaultConfig: ServiceConfig)
    ensures RunCalls(NewServerManager(), calls, defaultConfig).Ok?
    ensures RunCalls(NewServerManager(), calls, defaultConfig).value.service == Some(Service(ConstructorConfig, true))
         || RunCalls(NewServerManager(), calls, defaultConfig).value.service == Some(Service(ConstructorConfig, false))
  {
    CallsKeepService(NewServerManager(), calls, defaultConfig);
  }
}
