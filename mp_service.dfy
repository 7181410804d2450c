/**
  One application served by a multiserver worker (`Service` in
  multiserver/multiserver.py): its configuration, the files whose
  modification times trigger a reload (`touch_reload`), the prefix routing of
  `accept`, and `reloadIfNeeded`.

  File modification times are a parameter (`FileTimes`): `mtime(path)` is
  `os.path.getmtime(path)`, or `None` where that raises. Loading the
  application (`exec` of the configured file, `sys.path`, `sys.modules` and
  `os.environ` juggling) is not part of this model; what is kept of it is that
  each `configure` builds a new task queue and counts as one more load
  (`Configurations`).
*/
module MpService {
  import opened Wrappers
  import Text
  import Dicts
  import opened Values
  import opened HttpHeader
  import opened Accept

  /** The files whose modification time can be read, with that time. */
  type FileTimes = map<string, int>

  /** `Service.mtime(path)`: the file's modification time, or `None` when it cannot be read. */
  function MTime(fs: FileTimes, path: string): Option<int>
  {
    if path in fs then Some(fs[path]) else None
  }

  /** The recorded modification time of each watched file, keyed by path. */
  type Stamps = seq<(string, Option<int>)>

  /** A `touch_reload` setting `configure` can normalise: absent, one path, or a list of paths. */
  predicate TouchReloadOk(config: Value)
  {
    var v := Lookup(config, "touch_reload", List([]));
    v.Str? || (v.List? && forall x :: x in v.items ==> x.Str?)
  }

  /** The watched paths: `config.get("touch_reload", [])`, with a lone string made a one-element list. */
  function TouchReload(config: Value): (paths: seq<string>)
    requires TouchReloadOk(config)
    ensures !HasKey(config, "touch_reload") ==> paths == []
  {
    var v := Lookup(config, "touch_reload", List([]));
    if v.Str? then [v.s]
    else seq(|v.items|, i requires 0 <= i < |v.items| => assert v.items[i] in v.items; v.items[i].s)
  }

  /** A single string names exactly one watched file, and each string of a list names one, in order. */
  lemma TouchReloadPaths(config: Value)
    requires TouchReloadOk(config)
    ensures var v := Lookup(config, "touch_reload", List([]));
      && (v.Str? ==> TouchReload(config) == [v.s])
      && (v.List? ==> |TouchReload(config)| == |v.items|
                      && forall i :: 0 <= i < |v.items| ==> v.items[i] == Str(TouchReload(config)[i]))
  {
    var v := Lookup(config, "touch_reload", List([]));
    if v.List? {
      forall i | 0 <= i < |v.items| ensures v.items[i] == Str(TouchReload(config)[i]) {
        assert v.items[i] in v.items;
      }
    }
  }

  /** The keys of a dict filled from `paths` in order: each path once, where it first occurs. */
  function DistinctPaths(paths: seq<string>): (u: seq<string>)
    ensures |u| <= |paths|
    decreases |paths|
  {
    if paths == [] then []
    else
      var init := paths[..|paths| - 1];
      var last := paths[|paths| - 1];
      if last in init then DistinctPaths(init) else DistinctPaths(init) + [last]
  }

  /** A path is in a non-empty list when it is in all but the last entry, or is the last. */
  lemma InInitOrLast(paths: seq<string>, p: string)
    requires paths != []
    ensures p in paths <==> p in paths[..|paths| - 1] || p == paths[|paths| - 1]
  {
    assert paths == paths[..|paths| - 1] + [paths[|paths| - 1]];
  }

  predicate NoRepeats(u: seq<string>)
  {
    forall i, j :: 0 <= i < j < |u| ==> u[i] != u[j]
  }

  /** The keys hold every path of the list, each once, and nothing else. */
  lemma {:induction false} DistinctPathsKeys(paths: seq<string>)
    ensures forall p :: p in DistinctPaths(paths) <==> p in paths
    ensures NoRepeats(DistinctPaths(paths))
    decreases |paths|
  {
    if paths != [] {
      var init := paths[..|paths| - 1];
      var last := paths[|paths| - 1];
      DistinctPathsKeys(init);
      forall p ensures p in paths <==> p in init || p == last {
        InInitOrLast(paths, p);
      }
      var u := DistinctPaths(init);
      if last !in init {
        var r := u + [last];
        assert DistinctPaths(paths) == r;
        forall i, j | 0 <= i < j < |r| ensures r[i] != r[j] {
          assert r[i] == u[i] && u[i] in u;
          if j < |u| {
            assert r[j] == u[j];
          }
        }
      }
    }
  }

  /** Where a path stands in a list. */
  lemma PathIndex(u: seq<string>, p: string) returns (i: nat)
    requires p in u
    ensures i < |u| && u[i] == p
  {
    i :| 0 <= i < |u| && u[i] == p;
  }

  /** `{path: self.mtime(path) for path in paths}`. */
  function StampsOf(paths: seq<string>, fs: FileTimes): (r: Stamps)
    ensures |r| <= |paths|
    ensures forall i :: 0 <= i < |r| ==> r[i].0 in paths && r[i].1 == MTime(fs, r[i].0)
  {
    var keys := DistinctPaths(paths);
    DistinctPathsKeys(paths);
    seq(|keys|, i requires 0 <= i < |keys| => (keys[i], MTime(fs, keys[i])))
  }

  /** The recorded stamps hold one entry per watched path, each with the time read for it, and nothing else. */
  lemma StampsGet(paths: seq<string>, fs: FileTimes, p: string)
    ensures Dicts.DistinctKeys(StampsOf(paths, fs))
    ensures Dicts.Get(StampsOf(paths, fs), p) == if p in paths then Some(MTime(fs, p)) else None
  {
    var u := DistinctPaths(paths);
    var d := StampsOf(paths, fs);
    DistinctPathsKeys(paths);
    assert Dicts.Keys(d) == u;
    assert Dicts.DistinctKeys(d) by {
      forall i, j | 0 <= i < j < |d| ensures d[i].0 != d[j].0 {
        assert d[i].0 == u[i] && d[j].0 == u[j] && NoRepeats(u);
      }
    }
    if p in paths {
      var i := PathIndex(u, p);
      Dicts.GetAt(d, i);
    }
  }

  /** The entry for `path`, recorded as `recorded`, shows a file touched since: its time can be read and differs. */
  predicate Touched(entry: (string, Option<int>), fs: FileTimes)
  {
    MTime(fs, entry.0).Some? && MTime(fs, entry.0) != entry.1
  }

  /** Some watched file was touched since its time was recorded. */
  predicate AnyTouched(stamps: Stamps, fs: FileTimes)
  {
    exists i :: 0 <= i < |stamps| && Touched(stamps[i], fs)
  }

  /**
    The loop of `reloadIfNeeded`: the recorded entries are visited in order
    until one shows a touched file; `true` when one does.
  */
  method FindTouched(stamps: Stamps, fs: FileTimes) returns (touched: bool)
    ensures touched <==> AnyTouched(stamps, fs)
  {
    var i := 0;
    while i < |stamps|
      invariant 0 <= i <= |stamps|
      invariant forall j :: 0 <= j < i ==> !Touched(stamps[j], fs)
    {
      var (path, recorded) := stamps[i];
      var mt := MTime(fs, path);
      if mt.Some? && mt != recorded {
        return true;
      }
      i := i + 1;
    }
    return false;
  }

  /**
    Stamps taken when the file times were `before` show a touched file under
    `now` exactly when some watched path now has a readable time that differs
    from the one it had then.
  */
  lemma TouchedIff(paths: seq<string>, before: FileTimes, now: FileTimes)
    ensures AnyTouched(StampsOf(paths, before), now) <==>
            exists p :: p in paths && MTime(now, p).Some? && MTime(now, p) != MTime(before, p)
  {
    var u := DistinctPaths(paths);
    var d := StampsOf(paths, before);
    DistinctPathsKeys(paths);
    if AnyTouched(d, now) {
      var i :| 0 <= i < |d| && Touched(d[i], now);
      assert u[i] in u;
    }
    if exists p :: p in paths && MTime(now, p).Some? && MTime(now, p) != MTime(before, p) {
      var p :| p in paths && MTime(now, p).Some? && MTime(now, p) != MTime(before, p);
      var i := PathIndex(u, p);
      assert Touched(d[i], now);
    }
  }

  /** Stamps just taken show nothing touched: a reload check right after `configure`, with the same file times, does not reload. */
  lemma FreshStampsQuiet(paths: seq<string>, fs: FileTimes)
    ensures !AnyTouched(StampsOf(paths, fs), fs)
  {
    TouchedIff(paths, fs, fs);
  }

  /**
    A configuration the modelled part of `configure` can take, and that
    `accept` can work with: watched files given as a path or a list of paths,
    a string prefix, and a usable replacement prefix.
  */
  predicate ConfigureOk(config: Value)
  {
    && TouchReloadOk(config)
    && Lookup(config, "prefix", Str("/")).Str?
    && ReplaceUsable(Lookup(config, "replace_prefix", Null))
  }

  /** A configuration `Service.__init__` can take: it reads `config["name"]` first. */
  predicate ServiceConfigOk(config: Value)
  {
    HasKey(config, "name") && ConfigureOk(config)
  }

  /** What `configure` reads out of a configuration, besides the application itself. */
  datatype Settings = Settings(watched: seq<string>, prefix: string, replace: Value, timeout: Value,
                               maxWorkers: Value, capacity: Value)

  /**
    The settings of a configuration: the watched files, `prefix` (default
    `/`), `replace_prefix` (default `None`), `timeout` (default 10),
    `max_workers` (default 5) and `queue_capacity` (default 10).
  */
  function SettingsOf(config: Value): Settings
    requires ConfigureOk(config)
  {
    Settings(TouchReload(config), Lookup(config, "prefix", Str("/")).s, Lookup(config, "replace_prefix", Null),
             Lookup(config, "timeout", Int(10)), Lookup(config, "max_workers", Int(5)),
             Lookup(config, "queue_capacity", Int(10)))
  }

  /** A configuration that sets none of these keys gets every default. */
  lemma SettingsDefaults(config: Value)
    requires ConfigureOk(config)
    ensures var s := SettingsOf(config);
      && (!HasKey(config, "touch_reload") ==> s.watched == [])
      && (!HasKey(config, "prefix") ==> s.prefix == "/")
      && (!HasKey(config, "replace_prefix") ==> s.replace == Null)
      && (!HasKey(config, "timeout") ==> s.timeout == Int(10))
      && (!HasKey(config, "max_workers") ==> s.maxWorkers == Int(5))
      && (!HasKey(config, "queue_capacity") ==> s.capacity == Int(10))
  {
  }

  /** `config = config or self.Config`. */
  function Chosen(config: Option<Value>, current: Value): Value
  {
    if config.Some? && Truthy(config.value) then config.value else current
  }

  /**
    `configure` is handed a configuration only by `__init__`, where the
    configuration has a `name` and so is chosen over `None`; `reloadIfNeeded`
    hands it none, and the current one is kept. So `Config`, and every setting
    derived from it, stays what `__init__` was given.
  */
  lemma ConfigStaysPut(config: Value, current: Value)
    requires HasKey(config, "name")
    ensures Chosen(Some(config), Null) == config
    ensures Chosen(None, current) == current
  {
    assert |Dicts.Keys(config.entries)| > 0;
  }

  /** The `Name` a service is given, `f"[app {name}]"`, which `accept` records on the request. */
  function AppLabel(name: Value): string
  {
    "[app " + Render(name) + "]"
  }

  class Service {
    const ServiceName: Value
    const Name: string
    /** The configuration and the settings derived from it, fixed at construction (`ConfigStaysPut`). */
    const Config: Value
    const WatchedFiles: seq<string>
    const Prefix: string
    const ReplacePrefix: Value
    const Timeout: Value
    /** The file times read by the last `configure`. */
    var LoadTimes: FileTimes
    var RequestQueue: TaskQueue
    /** How many times the application was loaded. */
    var Configurations: nat

    /**
      `ReloadFileTimestamps`: the time of each watched file, as read when the
      service was last configured.
    */
    function ReloadFileTimestamps(): Stamps
      reads this
    {
      StampsOf(WatchedFiles, LoadTimes)
    }

    /** `Config` can be configured from, and the settings are the ones derived from it. */
    predicate Valid()
    {
      && ConfigureOk(Config)
      && WatchedFiles == SettingsOf(Config).watched
      && Prefix == SettingsOf(Config).prefix
      && ReplacePrefix == SettingsOf(Config).replace
      && Timeout == SettingsOf(Config).timeout
    }

    /** The state `configure` leaves with the file times `fs`: those times, and a new, empty queue sized from `Config`. */
    predicate Configured(fs: FileTimes)
      reads this, RequestQueue
    {
      && Valid() && LoadTimes == fs
      && RequestQueue.Tasks == [] && !RequestQueue.Held
      && RequestQueue.MaxWorkers == SettingsOf(Config).maxWorkers
      && RequestQueue.Capacity == SettingsOf(Config).capacity
    }

    /** `Service(config)`: named after `config["name"]` and configured once from `config`. */
    constructor(config: Value, fs: FileTimes)
      requires ServiceConfigOk(config)
      ensures ServiceName == Lookup(config, "name", Null) && Name == AppLabel(ServiceName) && Config == config
      ensures Configured(fs) && fresh(RequestQueue) && Configurations == 1
    {
      var settings := SettingsOf(config);
      ServiceName := Lookup(config, "name", Null);
      Name := AppLabel(Lookup(config, "name", Null));
      Config := config;
      WatchedFiles, Prefix, ReplacePrefix, Timeout := settings.watched, settings.prefix, settings.replace, settings.timeout;
      LoadTimes, Configurations := fs, 1;
      RequestQueue := new TaskQueue(settings.maxWorkers, settings.capacity);
    }

    /**
      `configure()`: the watched files' times are read again and a new task
      queue is built from the unchanged configuration.
    */
    method Configure(fs: FileTimes)
      requires Valid()
      modifies this
      ensures Configured(fs) && fresh(RequestQueue)
      ensures Configurations == old(Configurations) + 1
    {
      Load(fs, SettingsOf(Config).maxWorkers, SettingsOf(Config).capacity);
    }

    /** What each `configure` does to the state: the times read, a new queue, one more load. */
    method Load(fs: FileTimes, maxWorkers: Value, capacity: Value)
      modifies this
      ensures LoadTimes == fs && Configurations == old(Configurations) + 1
      ensures fresh(RequestQueue) && RequestQueue.Tasks == [] && !RequestQueue.Held
      ensures RequestQueue.MaxWorkers == maxWorkers && RequestQueue.Capacity == capacity
    {
      var queue := new TaskQueue(maxWorkers, capacity);
      LoadTimes, RequestQueue, Configurations := fs, queue, Configurations + 1;
    }

    /**
      `accept(request)`: a request under `Prefix` gets the accepted URI, is
      labelled with this service's `Name` and is queued once (`true`); any
      other request is left alone (`false`).
    */
    method Accept(request: Request) returns (ok: bool)
      requires Valid() && request.Header.URI.Some?
      modifies request, request.Header, RequestQueue
      ensures ok <==> Text.StartsWith(old(request.Header.URI.value), Prefix)
      ensures ok ==>
        var uri := AcceptedUri(Prefix, ReplaceOf(ReplacePrefix), old(request.Header.URI.value));
        request.Header.Fields() == old(request.Header.Fields()).(uri := uri, path := uri)
        && RequestQueue.Tasks == old(RequestQueue.Tasks) + [RequestTask(request)]
        && request.AppName == Some(Str(Name))
      ensures !ok ==>
        request.Header.Fields() == old(request.Header.Fields()) && RequestQueue.Tasks == old(RequestQueue.Tasks)
        && request.AppName == old(request.AppName)
    {
      ok := AcceptRequest(request, RequestQueue, Prefix, ReplaceOf(ReplacePrefix), Some(Str(Name)));
    }

    /** `close()`: the request queue is put on hold, its tasks kept. */
    method Close()
      modifies RequestQueue
      ensures RequestQueue.Held && RequestQueue.Tasks == old(RequestQueue.Tasks)
    {
      RequestQueue.Hold();
    }

    /**
      `reloadIfNeeded()`: when some watched file was touched since it was
      recorded, the service is configured again (`true`; the source then
      returns `None`); otherwise nothing changes (`false`).
    */
    method ReloadIfNeeded(fs: FileTimes) returns (reloaded: bool)
      requires Valid()
      modifies this
      ensures reloaded <==> AnyTouched(old(ReloadFileTimestamps()), fs)
      ensures reloaded ==> Configured(fs) && fresh(RequestQueue) && Configurations == old(Configurations) + 1
      ensures !reloaded ==> unchanged(this)
    {
      reloaded := FindTouched(ReloadFileTimestamps(), fs);
      if reloaded {
        Configure(fs);
      }
    }
  }
}
