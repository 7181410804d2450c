/**
  Prefix-based acceptance, shared by the three multiserver front ends
  (`Service.accept` in multiserver/multiserver.py, `QueuedApplication.accept`
  in bin/multiserver.py and in webpie/multiserver.py): a request whose URI
  starts with the application's prefix loses that prefix, is given a leading
  `/`, gets the replacement prefix in front when one is configured, and is
  queued as exactly one task; any other request is left alone.

  The request header here is the `HTTPHeader` of the old server: its
  `replaceURI` sets `URI` and `Path` together, as the accepting code expects.
  A task queue is a plain list of tasks; its workers, its capacity wait and
  the application it runs are not part of this model.
*/
module Accept {
  import opened Wrappers
  import Text
  import opened HttpHeader
  import opened Values

  /** What `if self.ReplacePrefix: uri = self.ReplacePrefix + uri` puts in front: nothing for `None` or `""`. */
  function Replacement(replace: Option<string>): string
  {
    if replace.Some? then replace.value else ""
  }

  /**
    A configured `replace_prefix` as `accept` uses it: a string is put in
    front of the URI when it is not empty, and any value Python counts as
    false puts nothing there.
  */
  function ReplaceOf(v: Value): (r: Option<string>)
    ensures Replacement(r) != "" <==> v.Str? && Truthy(v)
  {
    if v.Str? then Some(v.s) else None
  }

  /** A `replace_prefix` that `accept` can use: a truthy value that is not a string would make `+` raise `TypeError`. */
  predicate ReplaceUsable(v: Value)
  {
    v.Str? || !Truthy(v)
  }

  /** `if not uri.startswith("/"): uri = "/" + uri`. */
  function Rooted(s: string): (r: string)
    ensures Text.StartsWith(r, "/")
    ensures Text.StartsWith(s, "/") ==> r == s
    ensures !Text.StartsWith(s, "/") ==> r == "/" + s
  {
    if Text.StartsWith(s, "/") then s else "/" + s
  }

  /**
    The URI an application mounted at `prefix` hands on: `None` when the URI
    is not under the prefix, otherwise the rest of the URI, rooted at `/`,
    behind the replacement prefix.
  */
  function AcceptedUri(prefix: string, replace: Option<string>, uri: string): (r: Option<string>)
    ensures r.Some? <==> Text.StartsWith(uri, prefix)
    ensures r.Some? ==> Text.StartsWith(r.value, Replacement(replace))
    ensures r.Some? ==> |r.value| > |Replacement(replace)| && r.value[|Replacement(replace)|] == '/'
  {
    if Text.StartsWith(uri, prefix) then
      var rest := Rooted(uri[|prefix|..]);
      assert (Replacement(replace) + rest)[|Replacement(replace)|] == rest[0];
      Some(Replacement(replace) + rest)
    else None
  }

  /**
    Mounting and accepting are inverse: a rooted path mounted under the
    prefix comes back as that same path behind the replacement prefix.
  */
  lemma MountRoundTrip(prefix: string, replace: Option<string>, p: string)
    requires Text.StartsWith(p, "/")
    ensures AcceptedUri(prefix, replace, prefix + p) == Some(Replacement(replace) + p)
  {
    var uri := prefix + p;
    assert uri[..|prefix|] == prefix;
    assert uri[|prefix|..] == p;
  }

  /**
    Conversely every accepted URI is the replacement prefix followed by a
    rooted path `p` that was mounted under the prefix, either as it stands or
    without its leading `/`.
  */
  lemma AcceptedIsMounted(prefix: string, replace: Option<string>, uri: string)
    requires Text.StartsWith(uri, prefix)
    ensures exists p :: (Text.StartsWith(p, "/") && AcceptedUri(prefix, replace, uri) == Some(Replacement(replace) + p)
                         && (uri == prefix + p || uri == prefix + p[1..]))
  {
    var rest := uri[|prefix|..];
    assert uri == prefix + rest;
    var p := Rooted(rest);
    if !Text.StartsWith(rest, "/") {
      assert p[1..] == rest;
    }
    assert Text.StartsWith(p, "/") && AcceptedUri(prefix, replace, uri) == Some(Replacement(replace) + p);
  }

  /**
    With the default prefix `/` and no replacement, a URI under `/` is handed
    on unchanged, except that a doubled leading `//` loses one `/`; a URI not
    starting with `/` is refused.
  */
  lemma DefaultPrefix(uri: string)
    ensures AcceptedUri("/", None, uri) ==
      if !Text.StartsWith(uri, "/") then None
      else if Text.StartsWith(uri, "//") then Some(uri[1..])
      else Some(uri)
  {
    if Text.StartsWith(uri, "/") {
      var rest := uri[1..];
      assert uri == "/" + rest;
      if Text.StartsWith(uri, "//") {
        assert rest[..1] == uri[1..2] == "/";
      } else {
        if |rest| >= 1 {
          assert uri[..2] == "/" + rest[..1];
        }
      }
    }
  }

  /** A request accepted by a front end, with the header it was read with. */
  class Request {
    const Header: HTTPHeader
    const Id: nat
    var AppName: Option<Value>

    constructor(header: HTTPHeader, id: nat)
      ensures Header == header && Id == id && AppName.None?
    {
      Header, Id, AppName := header, id, None;
    }
  }

  /** What is queued for a request. */
  datatype Task = RequestTask(request: Request)

  /** pythreader's `TaskQueue` as far as the front ends use it: tasks in arrival order, and the hold flag. */
  class TaskQueue {
    const MaxWorkers: Value
    const Capacity: Value
    var Tasks: seq<Task>
    var Held: bool

    constructor(maxWorkers: Value, capacity: Value)
      ensures MaxWorkers == maxWorkers && Capacity == capacity && Tasks == [] && !Held
    {
      MaxWorkers, Capacity, Tasks, Held := maxWorkers, capacity, [], false;
    }

    /** `addTask(t)`. */
    method AddTask(t: Task)
      modifies this
      ensures Tasks == old(Tasks) + [t] && Held == old(Held)
    {
      Tasks := Tasks + [t];
    }

    /** `hold()`: the queue stops starting tasks. */
    method Hold()
      modifies this
      ensures Held && Tasks == old(Tasks)
    {
      Held := true;
    }
  }

  /**
    The body shared by the three `accept` methods. `name` is what the front
    end records as the request's `AppName` (`None` where it records
    nothing). The request is accepted exactly when its URI starts with the
    prefix; then the header's URI and path become the accepted URI and one
    task for the request is queued. Otherwise nothing changes.
  */
  method AcceptRequest(request: Request, queue: TaskQueue, prefix: string, replace: Option<string>,
                       name: Option<Value>) returns (ok: bool)
    requires request.Header.URI.Some?
    modifies request, request.Header, queue
    ensures ok <==> Text.StartsWith(old(request.Header.URI.value), prefix)
    ensures ok ==>
      var uri := AcceptedUri(prefix, replace, old(request.Header.URI.value));
      request.Header.Fields() == old(request.Header.Fields()).(uri := uri, path := uri)
      && queue.Tasks == old(queue.Tasks) + [RequestTask(request)]
      && request.AppName == (if name.Some? then name else old(request.AppName))
    ensures !ok ==>
      request.Header.Fields() == old(request.Header.Fields()) && queue.Tasks == old(queue.Tasks)
      && request.AppName == old(request.AppName)
    ensures request.Header.Buffer == old(request.Header.Buffer) && queue.Held == old(queue.Held)
  {
    var header := request.Header;
    var uri := header.URI.value;
    if Text.StartsWith(uri, prefix) {
      uri := uri[|prefix|..];
      if !Text.StartsWith(uri, "/") {
        uri := "/" + uri;
      }
      if replace.Some? && replace.value != "" {
        uri := replace.value + uri;
      }
      header.ReplaceURI(uri);
      if name.Some? {
        request.AppName := name;
      }
      queue.AddTask(RequestTask(request));
      return true;
    }
    return false;
  }
}
