/**
  The master side of the multiprocess multiserver (`MPMultiServer` in
  multiserver/multiserver.py): it owns the listening port and a list of
  worker processes, scales that list to the configured number of processes
  on each `reconfigure`, replaces workers that died in `check_children`, and
  stops them all in `killme`.

  A worker is seen from the master as its `MultiServerSubprocess` object:
  whether its process is alive and the messages the master sent it. The
  configuration file is an input (its contents and its modification time);
  the socket is reduced to whether it was bound, and `sys.exit` to an
  outcome.
*/
module MpSupervisor {
  import opened Wrappers
  import opened Values
  import opened MpWorker

  /** A configuration `reconfigure` can read: `config["port"]`, and `config["processes"]` as an integer. */
  predicate SupervisorConfigOk(config: Value)
  {
    HasKey(config, "port") && Lookup(config, "processes", Null).Int?
  }

  /** `config["port"]`. */
  function PortOf(config: Value): Value
  {
    Lookup(config, "port", Null)
  }

  /** `config["processes"]`. */
  function ProcessesOf(config: Value): int
    requires SupervisorConfigOk(config)
  {
    Lookup(config, "processes", Null).i
  }

  /**
    How `reconfigure` ends: normally; by `sys.exit` because the port changed;
    or by the `IndexError` of popping from an empty list, which a negative
    `processes` leads to.
  */
  datatype Outcome = Done | PortChanged | PopFromEmpty

  /** The messages each worker of the list was sent, in list order. */
  function Outboxes(ps: seq<MultiServerSubprocess>): (r: seq<seq<string>>)
    reads ps
    ensures |r| == |ps|
  {
    seq(|ps|, i reads ps requires 0 <= i < |ps| => ps[i].Outbox)
  }

  /** Each mailbox with one more `msg` at its end. */
  function Sent(boxes: seq<seq<string>>, msg: string): (r: seq<seq<string>>)
    ensures |r| == |boxes|
  {
    seq(|boxes|, i requires 0 <= i < |boxes| => boxes[i] + [msg])
  }

  /** How many times `msg` is in a mailbox. */
  function Count(box: seq<string>, msg: string): nat
    decreases |box|
  {
    if box == [] then 0
    else Count(box[..|box| - 1], msg) + (if box[|box| - 1] == msg then 1 else 0)
  }

  /** Sending `msg` to every worker gives each exactly one more `msg` and no other message. */
  lemma SentOnce(boxes: seq<seq<string>>, msg: string, i: nat, other: string)
    requires i < |boxes| && other != msg
    ensures Count(Sent(boxes, msg)[i], msg) == Count(boxes[i], msg) + 1
    ensures Count(Sent(boxes, msg)[i], other) == Count(boxes[i], other)
  {
    var b := Sent(boxes, msg)[i];
    assert b[..|b| - 1] == boxes[i];
  }

  /** Every worker of the list is the master's view of its process. */
  predicate AllMaster(ps: seq<MultiServerSubprocess>)
    reads ps
  {
    forall p :: p in ps ==> p.MasterSide
  }

  /** Every worker of the list serves `port`. */
  predicate AllOnPort(ps: seq<MultiServerSubprocess>, port: Value)
  {
    forall p :: p in ps ==> p.Port == port
  }

  /** Workers just started on `port`: running, on the master side, sent nothing yet. */
  predicate Started(ps: seq<MultiServerSubprocess>, port: Value)
    reads ps
  {
    forall p :: p in ps ==> p.Alive && p.MasterSide && p.Outbox == [] && p.Port == port && !p.Stop
  }

  /** Every worker of `r` is one of `ps`, and its process is alive. */
  predicate AliveFrom(r: seq<MultiServerSubprocess>, ps: seq<MultiServerSubprocess>)
    reads ps
  {
    forall p :: p in r ==> p in ps && p.Alive
  }

  /** `[p for p in ps if p.is_alive()]`: the workers still running, in order. */
  function Living(ps: seq<MultiServerSubprocess>): (r: seq<MultiServerSubprocess>)
    reads ps
    ensures |r| <= |ps|
    ensures AliveFrom(r, ps)
    decreases |ps|
  {
    if ps == [] then []
    else
      var last := ps[|ps| - 1];
      Living(ps[..|ps| - 1]) + if last.Alive then [last] else []
  }

  /** The workers up to `i + 1` that are running: those up to `i`, then worker `i` if it is. */
  lemma LivingStep(ps: seq<MultiServerSubprocess>, i: nat)
    requires i < |ps|
    ensures Living(ps[..i + 1]) == Living(ps[..i]) + if ps[i].Alive then [ps[i]] else []
  {
    assert ps[..i + 1][..i] == ps[..i];
  }

  /**
    The loop of `check_children` over `self.Subprocesses`: the workers still
    alive, in order, and how many have died.
  */
  method Survivors(ps: seq<MultiServerSubprocess>) returns (alive: seq<MultiServerSubprocess>, died: nat)
    ensures alive == Living(ps) && died == |ps| - |alive|
  {
    alive, died := [], 0;
    var i := 0;
    while i < |ps|
      invariant i <= |ps| && alive == Living(ps[..i]) && died + |alive| == i
    {
      var p := ps[i];
      LivingStep(ps, i);
      if !p.Alive {
        died := died + 1;
      } else {
        alive := alive + [p];
      }
      i := i + 1;
    }
    assert ps[..i] == ps;
  }

  /**
    The living workers are exactly the workers of the list whose process is
    alive, never more than the list holds, each once when the list holds
    each once.
  */
  lemma {:induction false} LivingExactly(ps: seq<MultiServerSubprocess>)
    ensures forall p :: p in Living(ps) <==> p in ps && p.Alive
    ensures |Living(ps)| <= |ps|
    ensures Distinct(ps) ==> Distinct(Living(ps))
    decreases |ps|
  {
    if ps != [] {
      var init, last := ps[..|ps| - 1], ps[|ps| - 1];
      LivingExactly(init);
      assert ps == init + [last];
      if Distinct(ps) {
        assert Distinct(init);
        assert last !in init;
      }
    }
  }

  /** A list whose workers are all alive loses none of them. */
  lemma {:induction false} AllLiving(ps: seq<MultiServerSubprocess>)
    requires forall p :: p in ps ==> p.Alive
    ensures Living(ps) == ps
    decreases |ps|
  {
    if ps != [] {
      var init, last := ps[..|ps| - 1], ps[|ps| - 1];
      assert ps == init + [last];
      AllLiving(init);
    }
  }

  /** `for p in ps: p.request_reconfigure()`. */
  method RequestAll(ps: seq<MultiServerSubprocess>)
    requires Distinct(ps)
    modifies ps
    ensures Outboxes(ps) == Sent(old(Outboxes(ps)), "reconfigure")
    ensures forall p :: p in ps ==> p.Alive == old(p.Alive) && p.MasterSide == old(p.MasterSide)
  {
    for i := 0 to |ps|
      invariant forall k :: 0 <= k < i ==> ps[k].Outbox == old(ps[k].Outbox) + ["reconfigure"]
      invariant forall k :: i <= k < |ps| ==> unchanged(ps[k])
      invariant forall p :: p in ps ==> p.Alive == old(p.Alive) && p.MasterSide == old(p.MasterSide)
    {
      ps[i].RequestReconfigure();
    }
  }

  /** `for p in ps: p.stop()`, on the master side: every worker is sent `stop`. */
  method StopAll(ps: seq<MultiServerSubprocess>)
    requires Distinct(ps) && AllMaster(ps)
    modifies ps
    ensures Outboxes(ps) == Sent(old(Outboxes(ps)), "stop")
    ensures forall p :: p in ps ==> p.Alive == old(p.Alive) && p.MasterSide
  {
    for i := 0 to |ps|
      invariant forall k :: 0 <= k < i ==> ps[k].Outbox == old(ps[k].Outbox) + ["stop"]
      invariant forall k :: i <= k < |ps| ==> unchanged(ps[k])
      invariant forall p :: p in ps ==> p.Alive == old(p.Alive) && p.MasterSide
    {
      ps[i].StopWorker();
    }
  }

  /** `count` new workers, each built on `port` and started. */
  method Spawn(port: Value, count: nat) returns (ps: seq<MultiServerSubprocess>)
    ensures |ps| == count && Distinct(ps) && Started(ps, port)
    ensures forall k :: 0 <= k < |ps| ==> fresh(ps[k])
  {
    ps := [];
    for i := 0 to count
      invariant |ps| == i && Distinct(ps) && Started(ps, port)
      invariant forall k :: 0 <= k < i ==> fresh(ps[k])
    {
      var p := new MultiServerSubprocess(port);
      p.Launch();
      ps := ps + [p];
    }
  }

  /**
    `while n < len(ps): ps.pop().stop()`: the newest workers are stopped
    until `n` are left. With a negative `n` every worker is stopped and the
    next `pop` fails (`underflow`).
  */
  method StopNewest(ps: seq<MultiServerSubprocess>, n: int) returns (rest: seq<MultiServerSubprocess>, underflow: bool)
    requires Distinct(ps) && AllMaster(ps) && n < |ps|
    modifies ps
    ensures underflow <==> n < 0
    ensures var keep := if n < 0 then 0 else n;
      && rest == ps[..keep]
      && Outboxes(ps[keep..]) == Sent(old(Outboxes(ps))[keep..], "stop")
      && Outboxes(rest) == old(Outboxes(ps))[..keep]
    ensures forall p :: p in ps ==> p.Alive == old(p.Alive) && p.MasterSide
  {
    ghost var before := Outboxes(ps);
    rest := ps;
    underflow := false;
    while n < |rest|
      invariant |rest| <= |ps| && rest == ps[..|rest|]
      invariant n < |rest| || (n >= 0 && |rest| == n)
      invariant forall k :: |rest| <= k < |ps| ==> ps[k].Outbox == old(ps[k].Outbox) + ["stop"]
      invariant forall k :: 0 <= k < |rest| ==> unchanged(ps[k])
      invariant forall p :: p in ps ==> p.Alive == old(p.Alive) && p.MasterSide
      decreases |rest|
    {
      if rest == [] {
        underflow := true;
        StoppedFrom(ps, before, 0);
        return;
      }
      var p := rest[|rest| - 1];
      rest := rest[..|rest| - 1];
      p.StopWorker();
    }
    StoppedFrom(ps, before, |rest|);
  }

  /** The mailboxes after the workers from `keep` on were each sent `stop`. */
  lemma StoppedFrom(ps: seq<MultiServerSubprocess>, before: seq<seq<string>>, keep: nat)
    requires |before| == |ps| && keep <= |ps|
    requires forall k :: keep <= k < |ps| ==> ps[k].Outbox == before[k] + ["stop"]
    requires forall k :: 0 <= k < keep ==> ps[k].Outbox == before[k]
    ensures Outboxes(ps[keep..]) == Sent(before[keep..], "stop")
    ensures Outboxes(ps[..keep]) == before[..keep]
  {
    var stopped, kept := Outboxes(ps[keep..]), Outboxes(ps[..keep]);
    forall k | 0 <= k < |stopped| ensures stopped[k] == Sent(before[keep..], "stop")[k] {
      assert ps[keep..][k] == ps[keep + k];
    }
    forall k | 0 <= k < keep ensures kept[k] == before[k] {
      assert ps[..keep][k] == ps[k];
    }
  }

  class MPMultiServer {
    var Port: Option<Value>
    /** Whether the listening socket was created and bound (`self.Sock`). */
    var Listening: bool
    var ReconfiguredTime: int
    var Config: Value
    var Subprocesses: seq<MultiServerSubprocess>
    var Stop: bool

    /** The workers are distinct, seen from the master, and serve the bound port. */
    predicate Valid()
      reads this, Subprocesses
    {
      && Distinct(Subprocesses) && AllMaster(Subprocesses)
      && (Listening <==> Port.Some?)
      && (Port.Some? ==> AllOnPort(Subprocesses, Port.value))
      && (Port.None? ==> Subprocesses == [])
    }

    /** `MPMultiServer(config_file)`: the port is bound and `processes` workers are started. */
    constructor(mtime: int, config: Value)
      requires SupervisorConfigOk(config) && ProcessesOf(config) >= 0
      ensures Port == Some(PortOf(config)) && Listening && ReconfiguredTime == mtime && Config == config && !Stop
      ensures |Subprocesses| == ProcessesOf(config) && Started(Subprocesses, PortOf(config))
      ensures Valid()
    {
      Port, Listening, ReconfiguredTime, Config, Subprocesses, Stop := None, false, 0, Null, [], false;
      new;
      var _ := Reconfigure(mtime, config);
    }

    /**
      `reconfigure()`, with `mtime` the configuration file's modification
      time and `config` its contents. The first call binds the port; a later
      call naming another port ends the master (`PortChanged`) with the
      workers untouched. Otherwise the list of workers is scaled to
      `processes`: growing sends every existing worker `reconfigure` and
      appends new started workers; shrinking stops the newest workers and
      sends `reconfigure` to those left; an unchanged count only sends
      `reconfigure`.
    */
    method Reconfigure(mtime: int, config: Value) returns (outcome: Outcome)
      requires Valid() && SupervisorConfigOk(config)
      modifies this, Subprocesses
      ensures ReconfiguredTime == mtime && Config == config && Stop == old(Stop)
      ensures outcome == PortChanged <==> old(Port).Some? && old(Port) != Some(PortOf(config))
      ensures outcome == PortChanged ==>
        Port == old(Port) && Subprocesses == old(Subprocesses) && Outboxes(Subprocesses) == old(Outboxes(Subprocesses))
      ensures outcome != PortChanged ==>
        && Port == Some(PortOf(config)) && Listening
        && (outcome == PopFromEmpty <==> ProcessesOf(config) < 0)
        && Rescaled(old(Subprocesses), old(Outboxes(Subprocesses)), Subprocesses, PortOf(config), ProcessesOf(config))
      ensures forall k :: |old(Subprocesses)| <= k < |Subprocesses| ==> fresh(Subprocesses[k])
      ensures outcome == Done ==> Valid()
    {
      ghost var boxes := Outboxes(Subprocesses);
      ReconfiguredTime, Config := mtime, config;
      var port := PortOf(config);
      if Port.None? {
        Port, Listening := Some(port), true;
      } else if Port.value != port {
        return PortChanged;
      }
      assert Outboxes(Subprocesses) == boxes;
      var underflow;
      Subprocesses, underflow := Rescale(Subprocesses, port, ProcessesOf(config));
      return if underflow then PopFromEmpty else Done;
    }

    /**
      `check_children()`: the dead workers are dropped, the living kept in
      their order, and unless the master is stopping one new worker is
      started for each that died, so the count is restored.
    */
    method CheckChildren() returns (died: nat)
      requires Valid() && Port.Some?
      modifies this
      ensures Stop == old(Stop) && Port == old(Port) && Port.Some? && Valid()
      ensures var living := old(Living(Subprocesses));
        && died == |old(Subprocesses)| - |living|
        && |Subprocesses| == |living| + (if Stop then 0 else died)
        && Subprocesses[..|living|] == living
        && Started(Subprocesses[|living|..], Port.value)
        && forall k :: |living| <= k < |Subprocesses| ==> fresh(Subprocesses[k])
    {
      LivingExactly(Subprocesses);
      var alive, nDied := Survivors(Subprocesses);
      died := nDied;
      var started: seq<MultiServerSubprocess> := [];
      if nDied > 0 && !Stop {
        started := Spawn(Port.value, nDied);
      }
      Subprocesses := Join(alive, started, Port.value);
    }

    /** `killme()`: the master is stopping, and every worker is sent `stop`. */
    method Killme()
      requires Valid()
      modifies this, Subprocesses
      ensures Stop && Subprocesses == old(Subprocesses)
      ensures Outboxes(Subprocesses) == Sent(old(Outboxes(Subprocesses)), "stop")
      ensures Valid()
    {
      Stop := true;
      StopAll(Subprocesses);
    }
  }

  /**
    Scaling the workers `before`, whose mailboxes held `boxes`, to `n`
    workers on `port` gave `after`. Growing keeps the old workers in front,
    each sent `reconfigure`, and appends newly started ones; shrinking stops
    the newest and sends `reconfigure` to the rest; a negative count stops
    them all and leaves none.
  */
  ghost predicate Rescaled(before: seq<MultiServerSubprocess>, boxes: seq<seq<string>>,
                           after: seq<MultiServerSubprocess>, port: Value, n: int)
    reads before, after
  {
    && |boxes| == |before|
    && (n < 0 ==> after == [] && Outboxes(before) == Sent(boxes, "stop"))
    && (n >= 0 ==> |after| == n && Distinct(after) && AllMaster(after) && AllOnPort(after, port))
    && (n >= |before| ==>
          && after[..|before|] == before
          && Outboxes(before) == Sent(boxes, "reconfigure")
          && Started(after[|before|..], port))
    && (0 <= n < |before| ==>
          && after == before[..n]
          && Outboxes(after) == Sent(boxes[..n], "reconfigure")
          && Outboxes(before[n..]) == Sent(boxes[n..], "stop"))
  }

  /**
    The scaling part of `reconfigure`: `n` workers wanted where `ps` run.
    A negative `n` stops every worker and then fails popping from the
    empty list.
  */
  method Rescale(ps: seq<MultiServerSubprocess>, port: Value, n: int) returns (r: seq<MultiServerSubprocess>, underflow: bool)
    requires Distinct(ps) && AllMaster(ps) && AllOnPort(ps, port)
    modifies ps
    ensures underflow <==> n < 0
    ensures Rescaled(ps, old(Outboxes(ps)), r, port, n)
    ensures !underflow ==> |r| == n && Distinct(r) && AllMaster(r) && AllOnPort(r, port)
    ensures forall k :: |ps| <= k < |r| ==> fresh(r[k])
  {
    if n > |ps| {
      r := Grow(ps, port, n - |ps|);
      underflow := false;
    } else if n < |ps| {
      r, underflow := Shrink(ps, n);
      assert ps[0..] == ps;
    } else {
      RequestAll(ps);
      r, underflow := ps, false;
      assert r[|ps|..] == [];
    }
  }

  /**
    Growing the list to `|ps| + count` workers: every existing worker is
    sent `reconfigure`, then `count` new workers are started after them.
  */
  method Grow(ps: seq<MultiServerSubprocess>, port: Value, count: nat) returns (r: seq<MultiServerSubprocess>)
    requires Distinct(ps) && AllMaster(ps) && AllOnPort(ps, port)
    modifies ps
    ensures |r| == |ps| + count && r[..|ps|] == ps
    ensures Distinct(r) && AllMaster(r) && AllOnPort(r, port)
    ensures Outboxes(ps) == Sent(old(Outboxes(ps)), "reconfigure")
    ensures Started(r[|ps|..], port) && forall k :: |ps| <= k < |r| ==> fresh(r[k])
  {
    RequestAll(ps);
    var started := Spawn(port, count);
    r := Join(ps, started, port);
    assert r[|ps|..] == started;
  }

  /**
    Shrinking the list to `n` workers: the newest are stopped, then those
    left are sent `reconfigure`; a negative `n` stops them all and then
    fails on the empty list.
  */
  method Shrink(ps: seq<MultiServerSubprocess>, n: int) returns (r: seq<MultiServerSubprocess>, underflow: bool)
    requires Distinct(ps) && AllMaster(ps) && n < |ps|
    modifies ps
    ensures underflow <==> n < 0
    ensures var keep := if n < 0 then 0 else n;
      && r == ps[..keep]
      && Outboxes(ps[keep..]) == Sent(old(Outboxes(ps))[keep..], "stop")
      && Outboxes(r) == Sent(old(Outboxes(ps))[..keep], "reconfigure")
    ensures Distinct(r) && AllMaster(r)
  {
    r, underflow := StopNewest(ps, n);
    if !underflow {
      RequestAll(r);
    }
  }

  /** The workers kept, followed by the ones just started. */
  method Join(kept: seq<MultiServerSubprocess>, started: seq<MultiServerSubprocess>, port: Value)
    returns (r: seq<MultiServerSubprocess>)
    requires Distinct(kept) && Distinct(started)
    requires forall i, j :: 0 <= i < |kept| && 0 <= j < |started| ==> kept[i] != started[j]
    requires AllMaster(kept) && AllOnPort(kept, port) && Started(started, port)
    ensures r == kept + started && Distinct(r) && AllMaster(r) && AllOnPort(r, port)
  {
    r := kept + started;
    assert forall i :: 0 <= i < |kept| ==> r[i] == kept[i];
    assert forall j :: 0 <= j < |started| ==> r[|kept| + j] == started[j];
  }
}
