/**
  The worker side of the multiprocess multiserver
  (`MultiServerSubprocess` in multiserver/multiserver.py): building the
  service list from a loaded configuration (templates and `names`), the
  control messages from the master, the periodic configuration check and
  `stop`.

  The configuration file is an input: its contents, already loaded and
  expanded, and its modification time are parameters, and so are the clock
  readings and the file times the services see. `yaml_expand` is not part of
  this model: it is taken to leave a configuration as it is. The HTTP server
  a worker runs is reduced to the list of services it was given.
*/
module MpWorker {
  import opened Wrappers
  import Dicts
  import opened Values
  import opened MpService

  // ---------------------------------------------------------------------
  // Template and `names` expansion (the body of `reconfigure`)
  // ---------------------------------------------------------------------

  /**
    The template a service entry asks for: `templates.get(svc_cfg.get("template", "*"))`
    when the entry has a `template` key. A missing template, or one given as
    `None`, is no template.
  */
  function TemplateOf(templates: Value, svc: Value): (t: Option<Value>)
    ensures t.Some? ==> HasKey(svc, "template") && t.value != Null
    ensures t.Some? ==> Lookup(svc, "template", Str("*")).Str?
                        && GetKey(templates, Lookup(svc, "template", Str("*")).s) == Some(t.value)
  {
    if !HasKey(svc, "template") then None
    else
      var name := Lookup(svc, "template", Str("*"));
      if !name.Str? then None
      else
        match GetKey(templates, name.s)
        case Some(t) => if t == Null then None else Some(t)
        case None => None
  }

  /**
    `c = {}; c.update(template); c.update(svc_cfg)`. Only dicts are merged
    (`EntryOk` below); any other pair stands for the entry itself.
  */
  function Merged(template: Value, svc: Value): Value
  {
    if template.Dict? && svc.Dict? then Dict(Dicts.Update(Dicts.Update([], template.entries), svc.entries))
    else svc
  }

  /** The entry with its template merged in, or the entry itself when it names none. */
  function Based(templates: Value, svc: Value): Value
  {
    var t := TemplateOf(templates, svc);
    if t.Some? then Merged(t.value, svc) else svc
  }

  /**
    `svc_cfg.get("names", [svc_cfg.get("name")])`. Only a list is iterated
    (`EntryOk` below); any other value stands for no names.
  */
  function NamesOf(cfg: Value): seq<Value>
  {
    var names := Lookup(cfg, "names", List([Lookup(cfg, "name", Null)]));
    if names.List? then names.items else []
  }

  /** `c = svc_cfg.copy(); c["name"] = name`; only a dict is copied (`EntryOk` below). */
  function Named(cfg: Value, name: Value): Value
  {
    if cfg.Dict? then Dict(Dicts.Put(cfg.entries, "name", name)) else cfg
  }

  /**
    A service entry `reconfigure` can expand: a dict, whose template, if it
    names one, is a dict, and whose `names` after merging is a list.
  */
  predicate EntryOk(templates: Value, svc: Value)
  {
    && svc.Dict?
    && (TemplateOf(templates, svc).Some? ==> TemplateOf(templates, svc).value.Dict?)
    && (HasKey(svc, "template") ==>
          Lookup(Based(templates, svc), "names", List([Lookup(Based(templates, svc), "name", Null)])).List?)
  }

  /** The configurations of an entry with a `template` key: its merged configuration under each name. */
  function NamedConfigs(b: Value, names: seq<Value>): (r: seq<Value>)
    ensures |r| == |names|
  {
    seq(|names|, i requires 0 <= i < |names| => Named(b, names[i]))
  }

  /** The service configurations one entry of `services` yields, in order. */
  function ExpandEntry(templates: Value, svc: Value): (r: seq<Value>)
    ensures !HasKey(svc, "template") ==> r == [svc]
    ensures HasKey(svc, "template") ==>
      var b := Based(templates, svc);
      |r| == |NamesOf(b)| && (b.Dict? ==> forall i :: 0 <= i < |r| ==> GetKey(r[i], "name") == Some(NamesOf(b)[i]))
  {
    if HasKey(svc, "template") then
      var b := Based(templates, svc);
      NamedConfigs(b, NamesOf(b))
    else [svc]
  }

  /** The lists `f` maps the entries to, joined in order. */
  function FlatMap(f: Value -> seq<Value>, xs: seq<Value>): (r: seq<Value>)
    ensures forall y :: y in r <==> exists j :: 0 <= j < |xs| && y in f(xs[j])
    decreases |xs|
  {
    if xs == [] then []
    else
      var init := xs[..|xs| - 1];
      var r := FlatMap(f, init) + f(xs[|xs| - 1]);
      assert forall y :: y in r <==> exists j :: 0 <= j < |xs| && y in f(xs[j]) by {
        forall y
          ensures y in r <==> exists j :: 0 <= j < |xs| && y in f(xs[j])
        {
          if y in FlatMap(f, init) {
            var j :| 0 <= j < |init| && y in f(init[j]);
            assert init[j] == xs[j];
          }
        }
      }
      r
  }

  /** Mapping a joined list is mapping its halves, one after the other. */
  lemma {:induction false} FlatMapAppend(f: Value -> seq<Value>, a: seq<Value>, b: seq<Value>)
    ensures FlatMap(f, a + b) == FlatMap(f, a) + FlatMap(f, b)
    decreases |b|
  {
    if b == [] {
      assert a + b == a;
    } else {
      var ab := a + b;
      var init, last := b[..|b| - 1], b[|b| - 1];
      assert ab[..|ab| - 1] == a + init;
      assert ab[|ab| - 1] == last;
      FlatMapAppend(f, a, init);
      Regroup(FlatMap(f, a), FlatMap(f, init), f(last));
    }
  }

  lemma Regroup(x: seq<Value>, y: seq<Value>, z: seq<Value>)
    ensures (x + y) + z == x + (y + z)
  {
  }

  /** The service configurations a list of entries yields: each entry's, in order. */
  function ExpandServices(templates: Value, svcs: seq<Value>): (r: seq<Value>)
    ensures forall c :: c in r <==> exists j :: 0 <= j < |svcs| && c in ExpandEntry(templates, svcs[j])
  {
    FlatMap(svc => ExpandEntry(templates, svc), svcs)
  }

  /** The entries up to `i + 1` yield those up to `i`, then entry `i`'s. */
  lemma ExpandServicesStep(templates: Value, svcs: seq<Value>, i: nat)
    requires i < |svcs|
    ensures ExpandServices(templates, svcs[..i + 1]) == ExpandServices(templates, svcs[..i]) + ExpandEntry(templates, svcs[i])
  {
    assert svcs[..i + 1][..i] == svcs[..i];
  }

  /**
    An entry with a `template` key yields one configuration per name, each
    carrying its name; every other key comes from the entry when the entry
    has it, otherwise from the template (when one was found).
  */
  lemma TemplateEntry(templates: Value, svc: Value, i: nat, k: string)
    requires EntryOk(templates, svc) && HasKey(svc, "template")
    requires Dicts.DistinctKeys(svc.entries)
    requires TemplateOf(templates, svc).Some? ==> Dicts.DistinctKeys(TemplateOf(templates, svc).value.entries)
    requires i < |NamesOf(Based(templates, svc))|
    ensures |ExpandEntry(templates, svc)| == |NamesOf(Based(templates, svc))|
    ensures GetKey(ExpandEntry(templates, svc)[i], "name") == Some(NamesOf(Based(templates, svc))[i])
    ensures k != "name" ==>
      GetKey(ExpandEntry(templates, svc)[i], k) ==
        if HasKey(svc, k) || TemplateOf(templates, svc).None? then GetKey(svc, k)
        else GetKey(TemplateOf(templates, svc).value, k)
  {
    var t := TemplateOf(templates, svc);
    if t.Some? {
      Dicts.UpdateGet(Dicts.Update([], t.value.entries), svc.entries, k);
      Dicts.UpdateGet([], t.value.entries, k);
    }
  }

  /** Without `names`, an entry with a `template` key yields exactly one configuration, named after its `name`. */
  lemma DefaultNames(templates: Value, svc: Value)
    requires EntryOk(templates, svc) && HasKey(svc, "template")
    requires !HasKey(Based(templates, svc), "names")
    ensures |ExpandEntry(templates, svc)| == 1
    ensures GetKey(ExpandEntry(templates, svc)[0], "name") == Some(Lookup(Based(templates, svc), "name", Null))
  {
  }

  /** Expanding a list is expanding its two halves, one after the other. */
  lemma ExpandServicesAppend(templates: Value, a: seq<Value>, b: seq<Value>)
    ensures ExpandServices(templates, a + b) == ExpandServices(templates, a) + ExpandServices(templates, b)
  {
    FlatMapAppend(svc => ExpandEntry(templates, svc), a, b);
  }

  /** A list of entries none of which names a template comes out as it went in. */
  lemma {:induction false} PlainServicesUnchanged(templates: Value, svcs: seq<Value>)
    requires forall i :: 0 <= i < |svcs| ==> !HasKey(svcs[i], "template")
    ensures ExpandServices(templates, svcs) == svcs
    decreases |svcs|
  {
    if svcs != [] {
      var init := svcs[..|svcs| - 1];
      var last := svcs[|svcs| - 1];
      PlainServicesUnchanged(templates, init);
      assert svcs == init + [last];
    }
  }

  /** `config.get("templates", {})`. */
  function TemplatesOf(config: Value): Value
  {
    Lookup(config, "templates", Dict([]))
  }

  /** `config.get("services", [])`. */
  function ServicesOf(config: Value): Value
  {
    Lookup(config, "services", List([]))
  }

  /** An entry `reconfigure` can expand, each of whose configurations a `Service` can be built from. */
  predicate EntryBuildable(templates: Value, svc: Value)
  {
    EntryOk(templates, svc) && forall c :: c in ExpandEntry(templates, svc) ==> ServiceConfigOk(c)
  }

  /** A configuration `reconfigure` can take. */
  predicate WorkerConfigOk(config: Value)
  {
    && config.Dict?
    && ServicesOf(config).List?
    && forall i :: 0 <= i < |ServicesOf(config).items| ==> EntryBuildable(TemplatesOf(config), ServicesOf(config).items[i])
  }

  /** The service configurations a worker configuration yields, in order. */
  function Expanded(config: Value): seq<Value>
    requires WorkerConfigOk(config)
  {
    ExpandServices(TemplatesOf(config), ServicesOf(config).items)
  }

  /** The configurations of a list of services, in order. */
  function ConfigsOf(services: seq<Service>): seq<Value>
  {
    seq(|services|, i requires 0 <= i < |services| => services[i].Config)
  }

  /** Different positions of the list hold different items. */
  predicate Distinct<T(==)>(xs: seq<T>)
  {
    forall i, j :: 0 <= i < j < |xs| ==> xs[i] != xs[j]
  }

  /** Every service of the list is in a state `accept` and `reloadIfNeeded` can work with. */
  predicate AllValid(services: seq<Service>)
  {
    forall s :: s in services ==> s.Valid()
  }

  /** `Service(expand(c), self.Logger)`, seen from the list that holds it. */
  method NewService(cfg: Value, fs: FileTimes) returns (s: Service)
    requires ServiceConfigOk(cfg)
    ensures fresh(s) && s.Config == cfg && s.Valid()
  {
    s := new Service(cfg, fs);
  }

  /**
    `for name in names: ... service_list.append(Service(expand(c), self.Logger))`,
    with `configs` the configurations built for the names, in order.
  */
  method BuildNamed(configs: seq<Value>, fs: FileTimes) returns (part: seq<Service>)
    requires forall c :: c in configs ==> ServiceConfigOk(c)
    ensures ConfigsOf(part) == configs
    ensures Distinct(part) && AllValid(part)
    ensures forall i :: 0 <= i < |part| ==> fresh(part[i])
  {
    part := [];
    for j := 0 to |configs|
      invariant ConfigsOf(part) == configs[..j]
      invariant Distinct(part) && AllValid(part)
      invariant forall k :: 0 <= k < j ==> fresh(part[k])
    {
      assert configs[j] in configs;
      var s := NewService(configs[j], fs);
      part := Concat(part, [s]);
    }
    assert configs[..|configs|] == configs;
  }

  /** The services one entry of `services` yields, built in order. */
  method BuildEntry(templates: Value, svc: Value, fs: FileTimes) returns (part: seq<Service>)
    requires EntryBuildable(templates, svc)
    ensures ConfigsOf(part) == ExpandEntry(templates, svc)
    ensures Distinct(part) && AllValid(part)
    ensures forall i :: 0 <= i < |part| ==> fresh(part[i])
  {
    var expanded := ExpandEntry(templates, svc);
    if HasKey(svc, "template") {
      part := BuildNamed(expanded, fs);
    } else {
      assert expanded[0] in expanded;
      var s := NewService(svc, fs);
      part := [s];
    }
  }

  /** The service list of `reconfigure`: every entry's services, entry by entry. */
  method BuildServices(templates: Value, svcs: seq<Value>, fs: FileTimes) returns (list: seq<Service>)
    requires forall i :: 0 <= i < |svcs| ==> EntryBuildable(templates, svcs[i])
    ensures ConfigsOf(list) == ExpandServices(templates, svcs)
    ensures Distinct(list) && AllValid(list)
    ensures forall i :: 0 <= i < |list| ==> fresh(list[i])
  {
    list := [];
    for i := 0 to |svcs|
      invariant ConfigsOf(list) == ExpandServices(templates, svcs[..i])
      invariant Distinct(list) && AllValid(list)
      invariant forall k :: 0 <= k < |list| ==> fresh(list[k])
    {
      var part := BuildEntry(templates, svcs[i], fs);
      ExpandServicesStep(templates, svcs, i);
      list := Concat(list, part);
    }
    assert svcs[..|svcs|] == svcs;
  }

  /** Two lists of services built apart, one after the other. */
  method Concat(a: seq<Service>, b: seq<Service>) returns (r: seq<Service>)
    requires Distinct(a) && Distinct(b) && forall i, j :: 0 <= i < |a| && 0 <= j < |b| ==> a[i] != b[j]
    ensures r == a + b && ConfigsOf(r) == ConfigsOf(a) + ConfigsOf(b) && Distinct(r)
    ensures AllValid(a) && AllValid(b) ==> AllValid(r)
  {
    r := a + b;
    assert forall i :: 0 <= i < |a| ==> r[i] == a[i];
    assert forall j :: 0 <= j < |b| ==> r[|a| + j] == b[j];
  }

  /** The interval, in seconds, between two configuration checks. */
  const CheckConfigInterval: real := 5.0

  /** `last_check_config` is due for a check at time `now`. */
  predicate Due(lastCheck: real, now: real)
  {
    now > lastCheck + CheckConfigInterval
  }

  class MultiServerSubprocess {
    const Port: Value
    /** `True` in the master process, `False` once `run` has started in the worker. */
    var MasterSide: bool
    var Stop: bool
    /** Messages sent to the worker over `ConnectionToSubprocess`, oldest first. */
    var Outbox: seq<string>
    var ReconfiguredTime: int
    var Config: Value
    var Services: seq<Service>
    /** Whether the HTTP server was created (`self.Server is not None`), and the services it was last given. */
    var HasServer: bool
    var ServerServices: seq<Service>
    /** `is_alive()`: the worker process was started and has not ended. */
    var Alive: bool

    /** The worker's services are distinct and each can accept and reload. */
    predicate Valid()
      reads this
    {
      Distinct(Services) && AllValid(Services)
    }

    /** `MultiServerSubprocess(port, sock, config_file)`. */
    constructor(port: Value)
      ensures Port == port && MasterSide && !Stop && Outbox == [] && ReconfiguredTime == 0
      ensures Services == [] && !HasServer && !Alive && Valid()
    {
      Port, MasterSide, Stop, Outbox, ReconfiguredTime := port, true, false, [], 0;
      Config, Services, HasServer, ServerServices, Alive := Null, [], false, [], false;
    }

    /** `start()`, seen from the master: the worker process is running; nothing else changes. */
    method Launch()
      modifies this
      ensures Alive && Outbox == old(Outbox) && MasterSide == old(MasterSide) && Stop == old(Stop)
    {
      Alive := true;
    }

    /** The worker process ends (its `run` returns, or it is killed); nothing else changes. */
    method Terminate()
      modifies this
      ensures !Alive && Outbox == old(Outbox) && MasterSide == old(MasterSide) && Stop == old(Stop)
    {
      Alive := false;
    }

    /**
      `reconfigure()`, with `mtime` the configuration file's modification
      time and `config` its contents: one new service per expanded service
      configuration, in order, handed to the server (created on the first
      call).
    */
    method Reconfigure(mtime: int, config: Value, fs: FileTimes)
      requires WorkerConfigOk(config)
      modifies this
      ensures ReconfiguredTime == mtime && Config == config
      ensures ConfigsOf(Services) == Expanded(config) && Valid()
      ensures forall i :: 0 <= i < |Services| ==> fresh(Services[i])
      ensures HasServer && ServerServices == Services
      ensures MasterSide == old(MasterSide) && Stop == old(Stop) && Outbox == old(Outbox)
    {
      var list := BuildServices(TemplatesOf(config), ServicesOf(config).items, fs);
      ReconfiguredTime, Config := mtime, config;
      HasServer, ServerServices, Services := true, list, list;
    }

    /** The start of `run`: the worker configures itself and stops being the master side. */
    method Start(mtime: int, config: Value, fs: FileTimes)
      requires WorkerConfigOk(config)
      modifies this
      ensures ReconfiguredTime == mtime && Config == config
      ensures ConfigsOf(Services) == Expanded(config) && Valid()
      ensures !MasterSide && Stop == old(Stop) && Outbox == old(Outbox)
    {
      Reconfigure(mtime, config, fs);
      MasterSide := false;
    }

    /**
      A control message from the master: `stop` sets `Stop`, `reconfigure`
      reconfigures, and any other message changes nothing.
    */
    method HandleMessage(msg: string, mtime: int, config: Value, fs: FileTimes)
      requires WorkerConfigOk(config)
      modifies this
      ensures msg == "stop" ==> Stop && Services == old(Services) && Config == old(Config)
                                && ReconfiguredTime == old(ReconfiguredTime)
      ensures msg == "reconfigure" ==> Stop == old(Stop) && ConfigsOf(Services) == Expanded(config)
                                       && Config == config && ReconfiguredTime == mtime
                                       && forall i :: 0 <= i < |Services| ==> fresh(Services[i])
      ensures msg != "stop" && msg != "reconfigure" ==> unchanged(this)
      ensures old(Valid()) ==> Valid()
    {
      if msg == "stop" {
        Stop := true;
      } else if msg == "reconfigure" {
        Reconfigure(mtime, config, fs);
      }
    }

    /**
      The configuration check: a configuration file newer than the last
      reconfiguration reconfigures the worker; otherwise every service runs
      `reloadIfNeeded`, and `reloads` says which of them reloaded.
    */
    method CheckConfig(mtime: int, config: Value, fs: FileTimes) returns (reconfigured: bool, reloads: seq<bool>)
      requires Valid() && WorkerConfigOk(config)
      modifies this, Services
      ensures reconfigured <==> mtime > old(ReconfiguredTime)
      ensures reconfigured ==>
        ConfigsOf(Services) == Expanded(config) && Config == config && ReconfiguredTime == mtime && reloads == []
      ensures !reconfigured ==>
        && Services == old(Services) && Config == old(Config) && ReconfiguredTime == old(ReconfiguredTime)
        && |reloads| == |Services|
        && forall i :: 0 <= i < |Services| ==>
             (reloads[i] <==> AnyTouched(old(Services[i].ReloadFileTimestamps()), fs))
      ensures Stop == old(Stop) && Valid()
    {
      if mtime > ReconfiguredTime {
        Reconfigure(mtime, config, fs);
        return true, [];
      }
      reloads := ReloadAll(Services, fs);
      reconfigured := false;
    }

    /**
      One pass of the worker loop after the socket wait: the message from the
      master, if any, then the configuration check when the worker is not
      stopping and the check is due. The worker is reconfigured by a
      `reconfigure` message, or by the check when the configuration file is
      newer than the last reconfiguration; otherwise its services, its
      configuration and its reconfiguration time stay as they were.
      `last_check_config` becomes the clock reading `after` on every pass,
      whether or not the check ran (`NextCheck`), which
      `BusyWorkerNeverChecks` shows starves the check.
    */
    method Pass(msg: Option<string>, now: real, lastCheck: real, after: real,
                mtime: int, config: Value, fs: FileTimes) returns (checked: bool, nextCheck: real)
      requires Valid() && WorkerConfigOk(config)
      modifies this, Services
      ensures Stop == (old(Stop) || msg == Some("stop"))
      ensures checked <==> !Stop && Due(lastCheck, now)
      ensures nextCheck == NextCheck(lastCheck, now, after)
      ensures msg == Some("reconfigure") || (checked && mtime > old(ReconfiguredTime)) ==>
        ConfigsOf(Services) == Expanded(config) && Config == config && ReconfiguredTime == mtime
      ensures !(msg == Some("reconfigure") || (checked && mtime > old(ReconfiguredTime))) ==>
        Services == old(Services) && Config == old(Config) && ReconfiguredTime == old(ReconfiguredTime)
      ensures Valid()
    {
      if msg.Some? {
        HandleMessage(msg.value, mtime, config, fs);
      }
      checked := !Stop && Due(lastCheck, now);
      if checked {
        var _, _ := CheckConfig(mtime, config, fs);
      }
      nextCheck := after;
    }

    /** `stop()`: on the master side a `stop` message is sent to the worker; in the worker, `Stop` is set. */
    method StopWorker()
      modifies this
      ensures MasterSide ==> Outbox == old(Outbox) + ["stop"] && Stop == old(Stop)
      ensures !MasterSide ==> Stop && Outbox == old(Outbox)
      ensures MasterSide == old(MasterSide) && Alive == old(Alive) && Services == old(Services)
    {
      if MasterSide {
        Outbox := Outbox + ["stop"];
      } else {
        Stop := true;
      }
    }

    /** `request_reconfigure()`: a `reconfigure` message is sent to the worker. */
    method RequestReconfigure()
      modifies this
      ensures Outbox == old(Outbox) + ["reconfigure"]
      ensures Stop == old(Stop) && MasterSide == old(MasterSide) && Alive == old(Alive) && Services == old(Services)
    {
      Outbox := Outbox + ["reconfigure"];
    }
  }

  /** `for svc in self.Services: svc.reloadIfNeeded()`, with which services reloaded. */
  method ReloadAll(services: seq<Service>, fs: FileTimes) returns (reloads: seq<bool>)
    requires Distinct(services) && AllValid(services)
    modifies services
    ensures |reloads| == |services|
    ensures forall i :: 0 <= i < |services| ==>
      (reloads[i] <==> AnyTouched(old(services[i].ReloadFileTimestamps()), fs))
  {
    reloads := [];
    for i := 0 to |services|
      invariant |reloads| == i
      invariant forall k :: 0 <= k < i ==>
        (reloads[k] <==> AnyTouched(old(services[k].ReloadFileTimestamps()), fs))
      invariant forall k :: i <= k < |services| ==> unchanged(services[k])
    {
      var r := services[i].ReloadIfNeeded(fs);
      reloads := reloads + [r];
    }
  }

  // ---------------------------------------------------------------------
  // When the configuration check runs
  // ---------------------------------------------------------------------

  /** `last_check_config = time.time()` at the end of every pass: the new value is the clock reading `after`. */
  function NextCheck(lastCheck: real, now: real, after: real): (r: real)
    ensures !Due(r, after)
    ensures now <= after ==> !Due(r, now)
  {
    after
  }

  /**
    Whether each pass of a run of passes checks the configuration, the pass
    at `times[i]` reading the clock once; `lastCheck` is `last_check_config`
    before the first pass.
  */
  function Checks(lastCheck: real, times: seq<real>): (r: seq<bool>)
    ensures |r| == |times|
    decreases |times|
  {
    if times == [] then []
    else [Due(lastCheck, times[0])] + Checks(NextCheck(lastCheck, times[0], times[0]), times[1..])
  }

  /**
    A busy worker: the first pass comes at most `CheckConfigInterval` after
    `lastCheck`, and each later pass at most `CheckConfigInterval` after the
    one before it.
  */
  predicate Busy(lastCheck: real, times: seq<real>)
  {
    && (|times| > 0 ==> times[0] <= lastCheck + CheckConfigInterval)
    && forall i :: 0 < i < |times| ==> times[i] <= times[i - 1] + CheckConfigInterval
  }

  /**
    A busy worker never checks its configuration, however long it runs,
    since every pass moves `last_check_config` up to its own clock reading.
  */
  lemma {:induction false} BusyWorkerNeverChecks(lastCheck: real, times: seq<real>)
    requires Busy(lastCheck, times)
    ensures forall i :: 0 <= i < |times| ==> !Checks(lastCheck, times)[i]
    decreases |times|
  {
    if times != [] {
      var rest := times[1..];
      assert Busy(times[0], rest) by {
        forall i | 0 < i < |rest|
          ensures rest[i] <= rest[i - 1] + CheckConfigInterval
        {
          assert rest[i] == times[i + 1] && rest[i - 1] == times[i];
        }
      }
      BusyWorkerNeverChecks(times[0], rest);
      var r := Checks(lastCheck, times);
      assert r == [Due(lastCheck, times[0])] + Checks(times[0], rest);
      forall i | 0 <= i < |times|
        ensures !r[i]
      {
        if i > 0 {
          assert r[i] == Checks(times[0], rest)[i - 1];
        }
      }
    }
  }

  /**
    Such a run can last as long as one likes: three passes three seconds
    apart, starting right after a check, end nine seconds after it, later
    than `CheckConfigInterval`, without a check.
  */
  lemma BusyWorkerStarves()
    ensures Busy(0.0, [3.0, 6.0, 9.0]) && 9.0 > 0.0 + CheckConfigInterval
    ensures Checks(0.0, [3.0, 6.0, 9.0]) == [false, false, false]
  {
    BusyWorkerNeverChecks(0.0, [3.0, 6.0, 9.0]);
  }

  /** The evidently intended bookkeeping: `last_check_config` moves only when the check ran. */
  function NextCheckIntended(lastCheck: real, now: real, after: real): (r: real)
    ensures Due(lastCheck, now) ==> !Due(r, after)
    ensures !Due(lastCheck, now) ==> r == lastCheck
  {
    if Due(lastCheck, now) then after else lastCheck
  }

  /** `Checks` with the intended bookkeeping. */
  function ChecksIntended(lastCheck: real, times: seq<real>): (r: seq<bool>)
    ensures |r| == |times|
    decreases |times|
  {
    if times == [] then []
    else [Due(lastCheck, times[0])] + ChecksIntended(NextCheckIntended(lastCheck, times[0], times[0]), times[1..])
  }

  /**
    With the intended bookkeeping, a run of passes that reaches a time more
    than `CheckConfigInterval` after the last check checks at least once.
  */
  lemma {:induction false} IntendedChecksEventually(lastCheck: real, times: seq<real>)
    requires exists i :: 0 <= i < |times| && Due(lastCheck, times[i])
    ensures exists i :: 0 <= i < |times| && ChecksIntended(lastCheck, times)[i]
    decreases |times|
  {
    var r := ChecksIntended(lastCheck, times);
    if Due(lastCheck, times[0]) {
      assert r[0];
    } else {
      var i :| 0 <= i < |times| && Due(lastCheck, times[i]);
      assert i != 0;
      assert times[1..][i - 1] == times[i];
      IntendedChecksEventually(lastCheck, times[1..]);
      var j :| 0 <= j < |times| - 1 && ChecksIntended(lastCheck, times[1..])[j];
      assert r[j + 1];
    }
  }
}
