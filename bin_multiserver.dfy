/**
  The command-line front end (bin/multiserver.py): `QueuedApplication`s with
  the default prefix `/`, and a `MultiServer` whose `reconfigure` rebuilds the
  table of servers by port, reusing the server of every port that stays,
  creating and starting one for every new port, and stopping the servers of
  the ports that are gone.

  Loading the application file (`exec` and the `create` call), logging and
  `join` are not part of this model; `sys.path` is the field `SysPath`.
*/
module BinMultiserver {
  import opened Wrappers
  import Text
  import Dicts
  import opened Values
  import opened HttpHeader
  import opened Accept

  /** A configuration `QueuedApplication.__init__` can take without raising before its application is loaded. */
  predicate AppConfigOk(config: Value)
  {
    && HasKey(config, "name")
    && HasKey(config, "file")
    && Lookup(config, "prefix", Str("/")).Str?
    && ReplaceUsable(Lookup(config, "replace_prefix", Null))
  }

  class QueuedApplication {
    const Config: Value
    const Name: Value
    const Prefix: string
    const ReplacePrefix: Value
    const Timeout: Value
    const RequestQueue: TaskQueue

    constructor(config: Value)
      requires AppConfigOk(config)
      ensures Config == config && Name == Lookup(config, "name", Null)
      ensures Prefix == Lookup(config, "prefix", Str("/")).s
      ensures ReplacePrefix == Lookup(config, "replace_prefix", Null)
      ensures Timeout == Lookup(config, "timeout", Int(10))
      ensures fresh(RequestQueue) && RequestQueue.Tasks == [] && !RequestQueue.Held
      ensures RequestQueue.MaxWorkers == Lookup(config, "max_workers", Int(5))
      ensures RequestQueue.Capacity == Lookup(config, "queue_capacity", Int(10))
    {
      Config := config;
      Name := Lookup(config, "name", Null);
      Prefix := Lookup(config, "prefix", Str("/")).s;
      ReplacePrefix := Lookup(config, "replace_prefix", Null);
      Timeout := Lookup(config, "timeout", Int(10));
      var maxWorkers := Lookup(config, "max_workers", Int(5));
      var capacity := Lookup(config, "queue_capacity", Int(10));
      RequestQueue := new TaskQueue(maxWorkers, capacity);
    }

    /**
      `accept(request)`: a request under `Prefix` gets the accepted URI, the
      application's name and exactly one queued task, and `accept` answers
      `true`; any other request is left as it was, with the queue.
    */
    method Accept(request: Request) returns (ok: bool)
      requires request.Header.URI.Some?
      requires ReplaceUsable(ReplacePrefix)
      modifies request, request.Header, RequestQueue
      ensures ok <==> Text.StartsWith(old(request.Header.URI.value), Prefix)
      ensures ok ==>
        var uri := AcceptedUri(Prefix, ReplaceOf(ReplacePrefix), old(request.Header.URI.value));
        request.Header.Fields() == old(request.Header.Fields()).(uri := uri, path := uri)
        && RequestQueue.Tasks == old(RequestQueue.Tasks) + [RequestTask(request)]
        && request.AppName == Some(Name)
      ensures !ok ==>
        request.Header.Fields() == old(request.Header.Fields()) && RequestQueue.Tasks == old(RequestQueue.Tasks)
        && request.AppName == old(request.AppName)
    {
      ok := AcceptRequest(request, RequestQueue, Prefix, ReplaceOf(ReplacePrefix), Some(Name));
    }
  }

  /** The server `HTTPServer.from_config` returns, as `MultiServer` drives it. */
  class HTTPServer {
    const Port: Value
    const Config: Value
    var Apps: seq<QueuedApplication>
    var Started: bool
    var StopCount: nat

    constructor(config: Value, apps: seq<QueuedApplication>)
      ensures Port == Lookup(config, "port", Null) && Config == config && Apps == apps
      ensures !Started && StopCount == 0
    {
      Port, Config, Apps := Lookup(config, "port", Null), config, apps;
      Started, StopCount := false, 0;
    }

    method Start()
      modifies this
      ensures Started && Apps == old(Apps) && StopCount == old(StopCount)
    {
      Started := true;
    }

    /** `reconfigureApps(apps)`: the running server takes the new applications. */
    method ReconfigureApps(apps: seq<QueuedApplication>)
      modifies this
      ensures Apps == apps && Started == old(Started) && StopCount == old(StopCount)
    {
      Apps := apps;
    }

    method Stop()
      modifies this
      ensures StopCount == old(StopCount) + 1 && Started == old(Started) && Apps == old(Apps)
    {
      StopCount := StopCount + 1;
    }
  }

  /** The port of a server entry, `cfg["port"]`. */
  function PortOf(cfg: Value): Value
  {
    Lookup(cfg, "port", Null)
  }

  /** A server entry `reconfigure` can build: a port and a list of application configurations. */
  predicate ServerConfigOk(cfg: Value)
  {
    && HasKey(cfg, "port")
    && Lookup(cfg, "apps", Null).List?
    && forall a :: a in Lookup(cfg, "apps", Null).items ==> AppConfigOk(a)
  }

  /** A configuration `reconfigure` can take: `servers` a list of buildable entries, `pythonpath` a list if given. */
  predicate ReconfigOk(config: Value)
  {
    && Lookup(config, "servers", Null).List?
    && (forall s :: s in Lookup(config, "servers", Null).items ==> ServerConfigOk(s))
    && Lookup(config, "pythonpath", List([])).List?
  }

  /** The application configurations of a server entry, `cfg["apps"]`. */
  function AppsOf(cfg: Value): seq<Value>
  {
    match Lookup(cfg, "apps", Null)
    case List(items) => items
    case _ => []
  }

  /** The configurations a list of applications was built from, in order. */
  function AppConfigs(apps: seq<QueuedApplication>): (cs: seq<Value>)
    ensures |cs| == |apps| && forall i :: 0 <= i < |apps| ==> cs[i] == apps[i].Config
  {
    seq(|apps|, i requires 0 <= i < |apps| => apps[i].Config)
  }

  /**
    Entry `j` is the last entry for its port: when several entries share a
    port the table's server is given the applications of each in turn, and
    keeps those of the last.
  */
  predicate LastForPort(entries: seq<Value>, j: nat)
  {
    forall k :: j < k < |entries| ==> PortOf(entries[k]) != PortOf(entries[j])
  }

  /**
    After the entries `entries`, the server given to entry `j` still holds
    entry `j`'s applications: it is new, or no later entry names its port.
  */
  predicate Settled(keys: seq<Value>, ports: seq<Value>, j: nat, n: nat)
    requires j < n <= |ports|
  {
    ports[j] !in keys || forall k :: j < k < n ==> ports[k] != ports[j]
  }

  lemma LastIsSettled(table: seq<(Value, HTTPServer)>, entries: seq<Value>)
    ensures forall j :: 0 <= j < |entries| && (PortOf(entries[j]) !in Dicts.Keys(table) || LastForPort(entries, j)) ==>
      Settled(Dicts.Keys(table), PortList(entries), j, |entries|)
  {
  }

  /** The application configurations of the entries, in order. */
  function AppsList(entries: seq<Value>): (ws: seq<seq<Value>>)
    ensures |ws| == |entries| && forall j :: 0 <= j < |entries| ==> ws[j] == AppsOf(entries[j])
  {
    seq(|entries|, j requires 0 <= j < |entries| => AppsOf(entries[j]))
  }

  /** The ports of the entries, in order. */
  function PortList(entries: seq<Value>): (ps: seq<Value>)
    ensures |ps| == |entries| && forall j :: 0 <= j < |entries| ==> ps[j] == PortOf(entries[j])
  {
    seq(|entries|, j requires 0 <= j < |entries| => PortOf(entries[j]))
  }

  /** `{cfg["port"] for cfg in new_servers}`. */
  function Ports(entries: seq<Value>): set<Value>
  {
    set i | 0 <= i < |entries| :: PortOf(entries[i])
  }

  /** `{srv.Port: srv for srv in servers}`. */
  function ByPort(servers: seq<HTTPServer>): seq<(Value, HTTPServer)>
  {
    if servers == [] then []
    else Dicts.Put(ByPort(servers[..|servers| - 1]), servers[|servers| - 1].Port, servers[|servers| - 1])
  }

  /**
    The table built from a server list holds each server under its own
    port, once, and its ports are exactly the ports of the listed servers.
  */
  lemma {:induction false} ByPortValid(servers: seq<HTTPServer>)
    ensures var table := ByPort(servers);
      && Dicts.DistinctKeys(table)
      && (forall i :: 0 <= i < |table| ==> table[i].1.Port == table[i].0)
      && (forall p :: p in Dicts.Keys(table) <==> HasPort(servers, p))
  {
    if servers != [] {
      var init := servers[..|servers| - 1];
      var last := servers[|servers| - 1];
      var prior := ByPort(init);
      ByPortValid(init);
      Dicts.PutDistinct(prior, last.Port, last);
      PutPorts(prior, last);
      var table := ByPort(servers);
      assert table == Dicts.Put(prior, last.Port, last);
      assert forall p :: p in Dicts.Keys(table) <==> p in Dicts.Keys(prior) || p == last.Port;
      HasPortSnoc(servers);
    }
  }

  lemma HasPortSnoc(servers: seq<HTTPServer>)
    requires servers != []
    ensures forall p :: HasPort(servers, p) <==> HasPort(servers[..|servers| - 1], p) || p == servers[|servers| - 1].Port
  {
    var init := servers[..|servers| - 1];
    var last := servers[|servers| - 1];
    forall p ensures HasPort(servers, p) <==> HasPort(init, p) || p == last.Port {
      if p == last.Port {
        assert servers[|servers| - 1].Port == p;
      }
      if HasPort(init, p) {
        var i :| 0 <= i < |init| && init[i].Port == p;
        assert servers[i] == init[i];
      }
      if HasPort(servers, p) {
        var i :| 0 <= i < |servers| && servers[i].Port == p;
        if i < |init| {
          assert init[i] == servers[i];
          assert HasPort(init, p);
        } else {
          assert servers[i] == last;
        }
      }
    }
  }

  /** `{srv.Port: srv for srv in self.Servers}` once the servers for `entries` are built. */
  method TableOf(servers: seq<HTTPServer>, entries: seq<Value>) returns (table: seq<(Value, HTTPServer)>)
    requires |servers| == |entries|
    requires forall j :: 0 <= j < |entries| ==> servers[j].Port == PortOf(entries[j])
    ensures TableOk(table)
    ensures forall p :: p in Dicts.Keys(table) <==> p in Ports(entries)
  {
    table := ByPort(servers);
    ByPortOfEntries(servers, entries);
  }

  /** The table of the servers built for the configured entries holds exactly the configured ports. */
  lemma ByPortOfEntries(servers: seq<HTTPServer>, entries: seq<Value>)
    requires |servers| == |entries|
    requires forall j :: 0 <= j < |entries| ==> servers[j].Port == PortOf(entries[j])
    ensures var table := ByPort(servers);
      && Dicts.DistinctKeys(table)
      && (forall i :: 0 <= i < |table| ==> table[i].1.Port == table[i].0)
      && (forall p :: p in Dicts.Keys(table) <==> p in Ports(entries))
  {
    ByPortValid(servers);
    PortsOfServers(servers, entries);
  }

  /** Servers built one per entry, each on its entry's port, cover exactly the entries' ports. */
  lemma PortsOfServers(servers: seq<HTTPServer>, entries: seq<Value>)
    requires |servers| == |entries|
    requires forall j :: 0 <= j < |entries| ==> servers[j].Port == PortOf(entries[j])
    ensures forall p :: HasPort(servers, p) <==> p in Ports(entries)
  {
    forall p ensures HasPort(servers, p) <==> p in Ports(entries) {
      if p in Ports(entries) {
        var i :| 0 <= i < |entries| && PortOf(entries[i]) == p;
        assert servers[i].Port == p;
      }
    }
  }

  predicate HasPort(servers: seq<HTTPServer>, p: Value)
  {
    exists i :: 0 <= i < |servers| && servers[i].Port == p
  }

  /** Assigning a server to its own port keeps every entry's server on its key. */
  lemma PutPorts(table: seq<(Value, HTTPServer)>, srv: HTTPServer)
    requires Dicts.DistinctKeys(table)
    requires forall i :: 0 <= i < |table| ==> table[i].1.Port == table[i].0
    ensures var r := Dicts.Put(table, srv.Port, srv);
      forall i :: 0 <= i < |r| ==> r[i].1.Port == r[i].0
  {
    var r := Dicts.Put(table, srv.Port, srv);
    Dicts.PutDistinct(table, srv.Port, srv);
    forall i | 0 <= i < |r| ensures r[i].1.Port == r[i].0 {
      var k := r[i].0;
      Dicts.GetAt(r, i);
      if k != srv.Port {
        assert Dicts.Get(table, k) == Some(r[i].1);
        assert (k, r[i].1) in table;
      }
    }
  }

  class MultiServer {
    var Config: Value
    var Servers: seq<HTTPServer>
    var ServersByPort: seq<(Value, HTTPServer)>
    const SavedSysPath: seq<Value>
    var SysPath: seq<Value>

    /** The table holds each server under its own port, once. */
    predicate Valid()
      reads this
    {
      TableOk(ServersByPort)
    }

    constructor(config: Value, sysPath: seq<Value>)
      requires ReconfigOk(config)
      ensures Valid() && Config == config && SavedSysPath == sysPath
      ensures var entries := Lookup(config, "servers", Null).items;
        |Servers| == |entries|
        && (forall i :: 0 <= i < |entries| ==> Servers[i].Port == PortOf(entries[i]) && fresh(Servers[i]) && Servers[i].Started)
        && (forall i :: 0 <= i < |entries| ==> AppConfigs(Servers[i].Apps) == AppsOf(entries[i]))
        && (forall p :: p in Dicts.Keys(ServersByPort) <==> p in Ports(entries))
    {
      Config := config;
      Servers, ServersByPort := [], [];
      SavedSysPath, SysPath := sysPath, sysPath;
      new;
      Reconfigure(config);
    }

    /**
      `reconfigure(config)`: afterwards `Servers` follows the configured
      entries in order and the table's ports are exactly the configured
      ports. An entry whose port the old table had gets that same server,
      reconfigured with the entry's applications and neither restarted nor
      stopped; an entry with a new port gets a new, started server. Every
      old server whose port is no longer configured is stopped exactly once;
      `SysPath` becomes `pythonpath` followed by the saved path.
    */
    method Reconfigure(config: Value)
      requires Valid() && ReconfigOk(config)
      modifies this, Held(ServersByPort)
      ensures Valid() && Config == old(Config)
      ensures SysPath == if HasKey(config, "pythonpath") then Lookup(config, "pythonpath", List([])).items + SavedSysPath
                         else old(SysPath)
      ensures var entries := Lookup(config, "servers", Null).items;
        && |Servers| == |entries|
        && (forall p :: p in Dicts.Keys(ServersByPort) <==> p in Ports(entries))
        && (forall i :: 0 <= i < |entries| ==> Picked(old(ServersByPort), entries[i], Servers[i]))
        && (forall i :: 0 <= i < |entries| && PortOf(entries[i]) !in Dicts.Keys(old(ServersByPort)) ==>
              fresh(Servers[i]) && Servers[i].Started && Servers[i].StopCount == 0)
        && (forall i :: 0 <= i < |entries| && (PortOf(entries[i]) !in Dicts.Keys(old(ServersByPort)) || LastForPort(entries, i)) ==>
              AppConfigs(Servers[i].Apps) == AppsOf(entries[i]))
      ensures forall i :: 0 <= i < |old(ServersByPort)| ==>
        var s := old(ServersByPort)[i].1;
        s.Started == old(s.Started)
        && s.StopCount == old(s.StopCount) + (if old(ServersByPort)[i].0 in Ports(Lookup(config, "servers", Null).items) then 0 else 1)
      ensures forall i :: 0 <= i < |old(ServersByPort)| ==>
        var s := old(ServersByPort)[i].1;
        old(ServersByPort)[i].0 !in Ports(Lookup(config, "servers", Null).items) ==> s.Apps == old(s.Apps)
    {
      if HasKey(config, "pythonpath") {
        SysPath := Lookup(config, "pythonpath", List([])).items + SavedSysPath;
      }
      Install(Lookup(config, "servers", Null).items);
    }

    /** Everything `reconfigure` does after setting `sys.path`, for the configured server entries. */
    method Install(entries: seq<Value>)
      requires Valid()
      requires forall e :: e in entries ==> ServerConfigOk(e)
      modifies this, Held(ServersByPort)
      ensures Valid() && Config == old(Config) && SysPath == old(SysPath)
      ensures |Servers| == |entries|
      ensures forall p :: p in Dicts.Keys(ServersByPort) <==> p in Ports(entries)
      ensures forall i :: 0 <= i < |entries| ==> Picked(old(ServersByPort), entries[i], Servers[i])
      ensures forall i :: 0 <= i < |entries| && PortOf(entries[i]) !in Dicts.Keys(old(ServersByPort)) ==>
        fresh(Servers[i]) && Servers[i].Started && Servers[i].StopCount == 0
      ensures forall i :: 0 <= i < |entries| && (PortOf(entries[i]) !in Dicts.Keys(old(ServersByPort)) || LastForPort(entries, i)) ==>
        AppConfigs(Servers[i].Apps) == AppsOf(entries[i])
      ensures forall i :: 0 <= i < |old(ServersByPort)| ==>
        var s := old(ServersByPort)[i].1;
        s.Started == old(s.Started)
        && s.StopCount == old(s.StopCount) + (if old(ServersByPort)[i].0 in Ports(entries) then 0 else 1)
      ensures forall i :: 0 <= i < |old(ServersByPort)| ==>
        var s := old(ServersByPort)[i].1;
        old(ServersByPort)[i].0 !in Ports(entries) ==> s.Apps == old(s.Apps)
    {
      var newPorts := Ports(entries);
      var table := ServersByPort;
      var newList := BuildServers(table, entries);
      Servers := newList;
      ServersByPort := TableOf(newList, entries);
      StopRemoved(table, newPorts);
      assert Servers == newList;
    }
  }

  /** A table holding each server under its own port, once. */
  predicate TableOk(table: seq<(Value, HTTPServer)>)
  {
    && Dicts.DistinctKeys(table)
    && forall i :: 0 <= i < |table| ==> table[i].1.Port == table[i].0
  }

  /** The servers a table holds. */
  function Held(table: seq<(Value, HTTPServer)>): set<HTTPServer>
  {
    set i | 0 <= i < |table| :: table[i].1
  }

  /**
    The loop over `new_servers`: one server per entry, in order. The server
    the table holds for the entry's port is reused and given the entry's
    applications; an entry with a port the table lacks gets a new server,
    which is started. Nothing is stopped and no server is restarted.
  */
  method BuildServers(table: seq<(Value, HTTPServer)>, entries: seq<Value>) returns (newList: seq<HTTPServer>)
    requires TableOk(table)
    requires forall e :: e in entries ==> ServerConfigOk(e)
    modifies Held(table)
    ensures |newList| == |entries|
    ensures forall j :: 0 <= j < |entries| ==> Picked(table, entries[j], newList[j])
    ensures forall j :: 0 <= j < |entries| && PortOf(entries[j]) !in Dicts.Keys(table) ==>
      fresh(newList[j]) && newList[j].Started && newList[j].StopCount == 0
    ensures forall j :: 0 <= j < |entries| && (PortOf(entries[j]) !in Dicts.Keys(table) || LastForPort(entries, j)) ==>
      AppConfigs(newList[j].Apps) == AppsOf(entries[j])
    ensures forall k :: 0 <= k < |table| ==>
      table[k].1.Started == old(table[k].1.Started) && table[k].1.StopCount == old(table[k].1.StopCount)
    ensures forall k :: 0 <= k < |table| && table[k].0 !in Ports(entries) ==> table[k].1.Apps == old(table[k].1.Apps)
  {
    newList := [];
    assert forall k :: 0 <= k < |table| ==> table[k].1 in Held(table);
    ghost var made: set<HTTPServer> := {};
    ghost var keys, ports, want := Dicts.Keys(table), PortList(entries), AppsList(entries);
    var i := 0;
    while i < |entries|
      invariant i <= |entries|
      invariant |newList| == i && forall j :: 0 <= j < i ==> Picked(table, entries[j], newList[j])
      invariant forall j :: 0 <= j < i && ports[j] !in keys ==> newList[j] in made
      invariant forall s :: s in made ==> s !in Held(table) && s.Started && s.StopCount == 0
      invariant forall s :: s in made ==> fresh(s)
      invariant forall s :: s in Held(table) ==>
        s.Started == old(s.Started) && s.StopCount == old(s.StopCount) && (s.Port !in Ports(entries) ==> s.Apps == old(s.Apps))
      invariant forall j :: 0 <= j < i && Settled(keys, ports, j, i) ==> AppConfigs(newList[j].Apps) == want[j]
    {
      assert entries[i] in entries && PortOf(entries[i]) in Ports(entries);
      newList, made := Extend(table, entries, i, newList, made);
      i := i + 1;
    }
    LastIsSettled(table, entries);
    forall k | 0 <= k < |table| && table[k].0 !in Ports(entries)
      ensures table[k].1.Apps == old(table[k].1.Apps)
    {
      assert table[k].1 in Held(table);
    }
  }

  /**
    One pass of the loop over `new_servers`, seen from the servers already
    given to entries `0 .. i - 1`: the server for entry `i` is appended, and
    only a server the table holds for entry `i`'s port can be handed out a
    second time, so every earlier server not given the applications of a
    later entry keeps its own.
  */
  method Extend(table: seq<(Value, HTTPServer)>, entries: seq<Value>, i: nat, newList: seq<HTTPServer>, ghost made: set<HTTPServer>)
    returns (next: seq<HTTPServer>, ghost made': set<HTTPServer>)
    requires TableOk(table) && i < |entries| && ServerConfigOk(entries[i])
    requires |newList| == i && forall j :: 0 <= j < i ==> Picked(table, entries[j], newList[j])
    requires forall j :: 0 <= j < i && PortList(entries)[j] !in Dicts.Keys(table) ==> newList[j] in made
    requires forall s :: s in made ==> s !in Held(table) && s.Started && s.StopCount == 0
    requires forall j :: 0 <= j < i && Settled(Dicts.Keys(table), PortList(entries), j, i) ==>
      AppConfigs(newList[j].Apps) == AppsList(entries)[j]
    modifies Held(table)
    ensures |next| == i + 1 && forall j :: 0 <= j <= i ==> Picked(table, entries[j], next[j])
    ensures forall j :: 0 <= j <= i && PortList(entries)[j] !in Dicts.Keys(table) ==> next[j] in made'
    ensures forall s :: s in made' ==> s !in Held(table) && s.Started && s.StopCount == 0
    ensures forall s :: s in made' ==> s in made || fresh(s)
    ensures forall s :: s in Held(table) ==> s.Started == old(s.Started) && s.StopCount == old(s.StopCount)
    ensures forall s :: s in Held(table) && s.Port != PortOf(entries[i]) ==> s.Apps == old(s.Apps)
    ensures forall j :: 0 <= j <= i && Settled(Dicts.Keys(table), PortList(entries), j, i + 1) ==>
      AppConfigs(next[j].Apps) == AppsList(entries)[j]
  {
    ghost var keys, ports, want := Dicts.Keys(table), PortList(entries), AppsList(entries);
    label step:
    next, made' := Hand(table, entries, i, newList, made);
    forall j | 0 <= j <= i && Settled(keys, ports, j, i + 1)
      ensures AppConfigs(next[j].Apps) == want[j]
    {
      if j < i {
        assert Settled(keys, ports, j, i);
        assert next[j] == next[..i][j];
        if newList[j] == next[i] {
          assert false;
        }
        assert next[j] == newList[j] && newList[j].Apps == old@step(newList[j].Apps);
      }
    }
  }

  /**
    The server for entry `i`, appended to the servers of the entries before
    it: only that server's applications change.
  */
  method Hand(table: seq<(Value, HTTPServer)>, entries: seq<Value>, i: nat, newList: seq<HTTPServer>, ghost made: set<HTTPServer>)
    returns (next: seq<HTTPServer>, ghost made': set<HTTPServer>)
    requires TableOk(table) && i < |entries| && ServerConfigOk(entries[i])
    requires |newList| == i && forall j :: 0 <= j < i ==> Picked(table, entries[j], newList[j])
    requires forall j :: 0 <= j < i && PortList(entries)[j] !in Dicts.Keys(table) ==> newList[j] in made
    requires forall s :: s in made ==> s !in Held(table) && s.Started && s.StopCount == 0
    modifies Held(table)
    ensures |next| == i + 1 && next[..i] == newList && forall j :: 0 <= j <= i ==> Picked(table, entries[j], next[j])
    ensures PortOf(entries[i]) !in Dicts.Keys(table) ==> fresh(next[i])
    ensures AppConfigs(next[i].Apps) == AppsOf(entries[i])
    ensures forall j :: 0 <= j <= i && PortList(entries)[j] !in Dicts.Keys(table) ==> next[j] in made'
    ensures forall s :: s in made' ==> s !in Held(table) && s.Started && s.StopCount == 0
    ensures forall s :: s in made' ==> s in made || fresh(s)
    ensures forall s :: s in Held(table) ==> s.Started == old(s.Started) && s.StopCount == old(s.StopCount)
    ensures forall s :: s in Held(table) && s != next[i] ==> s.Apps == old(s.Apps)
    ensures forall s :: s in Held(table) && s.Port != PortOf(entries[i]) ==> s.Apps == old(s.Apps)
  {
    var server := ServerFor(table, entries[i]);
    next := newList + [server];
    made' := if PortList(entries)[i] in Dicts.Keys(table) then made else made + {server};
    forall j | 0 <= j <= i
      ensures Picked(table, entries[j], next[j])
    {
      if j < i {
        assert next[j] == newList[j];
      }
    }
  }

  /**
    The server `s` given to entry `cfg` serves the entry's port, and is the
    table's server for that port when the table has one.
  */
  predicate Picked(table: seq<(Value, HTTPServer)>, cfg: Value, s: HTTPServer)
  {
    s.Port == PortOf(cfg) && (PortOf(cfg) in Dicts.Keys(table) ==> Some(s) == Dicts.Get(table, PortOf(cfg)))
  }

  /** One pass of that loop: the server for one entry. */
  method ServerFor(table: seq<(Value, HTTPServer)>, cfg: Value) returns (server: HTTPServer)
    requires TableOk(table) && ServerConfigOk(cfg)
    modifies Held(table)
    ensures Picked(table, cfg, server)
    ensures PortOf(cfg) !in Dicts.Keys(table) ==> fresh(server) && server.Started && server.StopCount == 0
    ensures AppConfigs(server.Apps) == AppsOf(cfg) && forall a :: a in server.Apps ==> fresh(a)
    ensures forall s :: s in Held(table) ==> s.Started == old(s.Started) && s.StopCount == old(s.StopCount)
    ensures forall s :: s in Held(table) && s != server ==> s.Apps == old(s.Apps)
    ensures forall s :: s in Held(table) && s.Port != PortOf(cfg) ==> s.Apps == old(s.Apps)
  {
    var port := PortOf(cfg);
    var apps := MakeApps(Lookup(cfg, "apps", Null).items);
    assert AppConfigs(apps) == AppsOf(cfg);
    var srv := Dicts.Get(table, port);
    if srv.None? {
      server := new HTTPServer(cfg, apps);
      server.Start();
    } else {
      server := srv.value;
      ServerOfTable(table, port);
      server.ReconfigureApps(apps);
    }
  }

  /**
    The `to_stop` loops: every server of the old table whose port is not
    among the new ports is stopped once, in the table's order; the others
    are left alone.
  */
  method StopRemoved(table: seq<(Value, HTTPServer)>, ports: set<Value>)
    requires TableOk(table)
    modifies Held(table)
    ensures forall k :: 0 <= k < |table| ==>
      table[k].1.Started == old(table[k].1.Started)
      && table[k].1.StopCount == old(table[k].1.StopCount) + (if table[k].0 in ports then 0 else 1)
    ensures forall s :: s in Held(table) ==> s.Apps == old(s.Apps)
  {
    for i := 0 to |table|
      invariant forall s :: s in Held(table) ==> s.Apps == old(s.Apps)
      invariant forall k :: 0 <= k < |table| ==> table[k].1.Started == old(table[k].1.Started)
      invariant forall k :: 0 <= k < i ==>
        table[k].1.StopCount == old(table[k].1.StopCount) + (if table[k].0 in ports then 0 else 1)
      invariant forall k :: i <= k < |table| ==> table[k].1.StopCount == old(table[k].1.StopCount)
    {
      if table[i].0 !in ports {
        table[i].1.Stop();
      }
    }
  }

  /** The server the table holds for a port is one of the running servers. */
  lemma ServerOfTable(table: seq<(Value, HTTPServer)>, port: Value)
    requires Dicts.Get(table, port).Some?
    ensures exists k :: 0 <= k < |table| && table[k].1 == Dicts.Get(table, port).value && table[k].0 == port
  {
    var s := Dicts.Get(table, port).value;
    assert (port, s) in table;
  }

  /** `[QueuedApplication(app_cfg, self.Logger) for app_cfg in cfg["apps"]]`. */
  method MakeApps(configs: seq<Value>) returns (apps: seq<QueuedApplication>)
    requires forall a :: a in configs ==> AppConfigOk(a)
    ensures |apps| == |configs|
    ensures forall i :: 0 <= i < |apps| ==> apps[i].Config == configs[i] && fresh(apps[i])
  {
    apps := [];
    for i := 0 to |configs|
      invariant |apps| == i
      invariant forall j :: 0 <= j < i ==> apps[j].Config == configs[j] && fresh(apps[j])
    {
      assert configs[i] in configs;
      var app := NewApp(configs[i]);
      apps := apps + [app];
    }
  }

  /** `QueuedApplication(app_cfg, logger)`, seen from the list that holds it. */
  method NewApp(config: Value) returns (app: QueuedApplication)
    requires AppConfigOk(config)
    ensures fresh(app) && app.Config == config
  {
    app := new QueuedApplication(config);
  }
}
