/**
  The packaged front end (webpie/multiserver.py): one `QueuedApplication`
  per configured application, each with its own task queue and a private
  copy of its environment, and a `MultiServer` that builds one server per
  configured port.

  Here `prefix` is mandatory (`config["prefix"]`), unlike the other two front
  ends, and `accept` does not record the application name on the request.
  Importing the application module and calling its `create_application` are
  not part of this model.
*/
module WebpieMultiserver {
  import opened Wrappers
  import Text
  import Dicts
  import opened Values
  import opened HttpHeader
  import opened Accept

  /** A configuration `QueuedApplication.__init__` can take without raising. */
  predicate AppConfigOk(config: Value)
  {
    && HasKey(config, "name")
    && HasKey(config, "module") && Lookup(config, "module", Null).Str?
    && HasKey(config, "prefix") && Lookup(config, "prefix", Null).Str?
    && ReplaceUsable(Lookup(config, "replace_prefix", Null))
    && Lookup(config, "env", Dict([])).Dict?
  }

  /** `env = {}; env.update(config.get("env", {}))`: a fresh dict holding the configured entries. */
  function EnvCopy(config: Value): (env: seq<(string, Value)>)
    requires Lookup(config, "env", Dict([])).Dict?
  {
    Dicts.Update([], Lookup(config, "env", Dict([])).entries)
  }

  /**
    The copy holds exactly the configured entries: the same keys, each with
    its configured value, and nothing when no `env` is configured.
  */
  lemma EnvCopyEntries(config: Value, k: string)
    requires Lookup(config, "env", Dict([])).Dict?
    requires Dicts.DistinctKeys(Lookup(config, "env", Dict([])).entries)
    ensures Dicts.Get(EnvCopy(config), k) == GetKey(Lookup(config, "env", Dict([])), k)
    ensures !HasKey(config, "env") ==> EnvCopy(config) == []
  {
    Dicts.UpdateGet([], Lookup(config, "env", Dict([])).entries, k);
  }

  class QueuedApplication {
    const Config: Value
    const Name: Value
    const Prefix: string
    const ReplacePrefix: Value
    const ModuleName: string
    const Env: seq<(string, Value)>
    const Timeout: Value
    const RequestQueue: TaskQueue

    constructor(config: Value)
      requires AppConfigOk(config)
      ensures Config == config && Name == Lookup(config, "name", Null)
      ensures Prefix == Lookup(config, "prefix", Null).s && ModuleName == Lookup(config, "module", Null).s
      ensures ReplacePrefix == Lookup(config, "replace_prefix", Null) && Env == EnvCopy(config)
      ensures Timeout == Lookup(config, "timeout", Int(10))
      ensures fresh(RequestQueue) && RequestQueue.Tasks == [] && !RequestQueue.Held
      ensures RequestQueue.MaxWorkers == Lookup(config, "max_workers", Int(5))
      ensures RequestQueue.Capacity == Lookup(config, "queue_capacity", Int(10))
    {
      Config := config;
      Name := Lookup(config, "name", Null);
      Prefix := Lookup(config, "prefix", Null).s;
      ReplacePrefix := Lookup(config, "replace_prefix", Null);
      ModuleName := Lookup(config, "module", Null).s;
      var env := [];
      env := Dicts.Update(env, Lookup(config, "env", Dict([])).entries);
      Env := env;
      Timeout := Lookup(config, "timeout", Int(10));
      var maxWorkers := Lookup(config, "max_workers", Int(5));
      var capacity := Lookup(config, "queue_capacity", Int(10));
      RequestQueue := new TaskQueue(maxWorkers, capacity);
    }

    /**
      `accept(request)`: a request under `Prefix` gets the accepted URI and
      exactly one queued task, and `accept` answers `true`; any other request
      is left as it was, with the queue, and `accept` answers `false`.
    */
    method Accept(request: Request) returns (ok: bool)
      requires request.Header.URI.Some?
      requires ReplaceUsable(ReplacePrefix)
      modifies request, request.Header, RequestQueue
      ensures ok <==> Text.StartsWith(old(request.Header.URI.value), Prefix)
      ensures ok ==>
        var uri := AcceptedUri(Prefix, ReplaceOf(ReplacePrefix), old(request.Header.URI.value));
        request.Header.Fields() == old(request.Header.Fields()).(uri := uri, path := uri)
        && RequestQueue.Tasks == old(RequestQueue.Tasks) + [RequestTask(request)]
      ensures !ok ==> request.Header.Fields() == old(request.Header.Fields()) && RequestQueue.Tasks == old(RequestQueue.Tasks)
      ensures request.AppName == old(request.AppName)
    {
      ok := AcceptRequest(request, RequestQueue, Prefix, ReplaceOf(ReplacePrefix), None);
    }
  }

  /** A configured server entry that `MultiServer.__init__` can build: a port and a list of application configurations. */
  predicate ServerConfigOk(cfg: Value)
  {
    && HasKey(cfg, "port")
    && Lookup(cfg, "apps", Null).List?
    && forall a :: a in Lookup(cfg, "apps", Null).items ==> AppConfigOk(a)
  }

  /** The application configurations of a server entry. */
  function AppConfigs(cfg: Value): seq<Value>
    requires ServerConfigOk(cfg)
  {
    Lookup(cfg, "apps", Null).items
  }

  /** The server the packaged `HTTPServer(port, apps, config=cfg)` stands for: its port, applications and configuration. */
  class HTTPServer {
    const Port: Value
    const Apps: seq<QueuedApplication>
    const Config: Value

    constructor(port: Value, apps: seq<QueuedApplication>, config: Value)
      ensures Port == port && Apps == apps && Config == config
    {
      Port, Apps, Config := port, apps, config;
    }

    /** The configurations the server's applications were built from, in order. */
    function AppConfigs(): seq<Value>
      reads this, Apps
    {
      seq(|Apps|, i reads Apps requires 0 <= i < |Apps| => Apps[i].Config)
    }
  }

  /** One `HTTPServer` of the loop over `config["servers"]`, on the entry's port, with its applications. */
  method MakeServer(cfg: Value) returns (srv: HTTPServer)
    requires ServerConfigOk(cfg)
    ensures fresh(srv) && srv.Port == Lookup(cfg, "port", Null) && srv.Config == cfg
    ensures srv.AppConfigs() == AppConfigs(cfg)
  {
    var apps := MakeApps(AppConfigs(cfg));
    srv := new HTTPServer(Lookup(cfg, "port", Null), apps, cfg);
    assert srv.AppConfigs() == AppConfigs(cfg);
  }

  /** `[QueuedApplication(app_cfg, logger) for app_cfg in cfg["apps"]]`. */
  method MakeApps(configs: seq<Value>) returns (apps: seq<QueuedApplication>)
    requires forall a :: a in configs ==> AppConfigOk(a)
    ensures |apps| == |configs|
    ensures forall i :: 0 <= i < |apps| ==> apps[i].Config == configs[i] && fresh(apps[i])
  {
    apps := [];
    for i := 0 to |configs|
      invariant |apps| == i
      invariant forall j :: 0 <= j < i ==> apps[j].Config == configs[j] && fresh(apps[j])
    {
      assert configs[i] in configs;
      var app := NewApp(configs[i]);
      apps := apps + [app];
    }
  }

  /** `QueuedApplication(app_cfg, logger)`, seen from the list that holds it. */
  method NewApp(config: Value) returns (app: QueuedApplication)
    requires AppConfigOk(config)
    ensures fresh(app) && app.Config == config
  {
    app := new QueuedApplication(config);
  }

  /**
    A configuration `MultiServer.__init__` can take: `paths`, when present, a
    list, and a list of buildable server entries.
  */
  predicate MultiConfigOk(config: Value)
  {
    && Lookup(config, "paths", List([])).List?
    && Lookup(config, "servers", Null).List?
    && forall s :: s in Lookup(config, "servers", Null).items ==> ServerConfigOk(s)
  }

  class MultiServer {
    const Config: Value
    /** The interpreter's module search path, `sys.path`. */
    var SysPath: seq<Value>
    var Servers: seq<HTTPServer>

    /**
      `MultiServer(config)` with `sys.path` at `sysPath`: the configured
      `paths` are appended to the search path, then one new server is made
      per entry of `servers`, in order, each on the entry's port with one
      application per entry of its `apps`.
    */
    constructor(config: Value, sysPath: seq<Value>)
      requires MultiConfigOk(config)
      ensures Config == config
      ensures SysPath == sysPath + Lookup(config, "paths", List([])).items
      ensures var entries := Lookup(config, "servers", Null).items;
        |Servers| == |entries|
        && forall i :: 0 <= i < |entries| ==>
             && fresh(Servers[i])
             && Servers[i].Port == Lookup(entries[i], "port", Null)
             && Servers[i].Config == entries[i]
             && Servers[i].AppConfigs() == AppConfigs(entries[i])
    {
      Config := config;
      SysPath := sysPath + Lookup(config, "paths", List([])).items;
      var entries := Lookup(config, "servers", Null).items;
      var servers: seq<HTTPServer> := [];
      for i := 0 to |entries|
        invariant |servers| == i
        invariant forall j :: 0 <= j < i ==>
          && fresh(servers[j])
          && servers[j].Port == Lookup(entries[j], "port", Null)
          && servers[j].Config == entries[j]
          && servers[j].AppConfigs() == AppConfigs(entries[j])
      {
        assert entries[i] in entries;
        var srv := MakeServer(entries[i]);
        servers := servers + [srv];
      }
      Servers := servers;
    }
  }
}
