/** Keeping the child alive: the restart loop with its backoff, and the bookkeeping that
    decides when a silent child is given up. */
module Supervision {
  import opened Wrappers
  import opened Numbers
  import Json
  import Protocol

  // ----- backoff

  datatype Restarting = Restarting(lazyStart: bool, backoff: nat, backoffMax: nat, maxRestarts: nat)

  function Power2(k: nat): nat {
    if k == 0 then 1 else 2 * Power2(k - 1)
  }

  function Min(a: nat, b: nat): nat { if a < b then a else b }

  /** The length of the k-th sleep; the first one is never capped. */
  function SleepAt(config: Restarting, k: nat): nat {
    if k == 0 then config.backoff else Min(config.backoff * Power2(k), config.backoffMax)
  }

  lemma NextSleep(config: Restarting, k: nat)
    ensures SleepAt(config, k + 1) == Min(SleepAt(config, k) * 2, config.backoffMax)
  {
    assert config.backoff * Power2(k + 1) == config.backoff * Power2(k) * 2;
  }

  ghost predicate SleepsAsPlanned(config: Restarting, sleeps: seq<nat>) {
    forall k :: 0 <= k < |sleeps| ==> sleeps[k] == SleepAt(config, k)
  }

  lemma SleepsOnceMore(config: Restarting, sleeps: seq<nat>)
    requires SleepsAsPlanned(config, sleeps)
    ensures var backoff := SleepAt(config, |sleeps|);
      && SleepsAsPlanned(config, sleeps + [backoff])
      && SleepAt(config, |sleeps| + 1) == Min(backoff * 2, config.backoffMax)
  {
    NextSleep(config, |sleeps|);
  }

  /** The first sleep is the configured one, and each one after it twice as long up to the maximum. */
  ghost predicate SleepsDouble(config: Restarting, sleeps: seq<nat>) {
    && (sleeps != [] ==> sleeps[0] == config.backoff)
    && forall k :: 0 < k < |sleeps| ==>
         sleeps[k] == if 2 * sleeps[k - 1] < config.backoffMax then 2 * sleeps[k - 1] else config.backoffMax
  }

  lemma PlannedSleepsDouble(config: Restarting, sleeps: seq<nat>)
    requires SleepsAsPlanned(config, sleeps)
    ensures SleepsDouble(config, sleeps)
  {
    forall k | 0 < k < |sleeps|
      ensures sleeps[k] == if 2 * sleeps[k - 1] < config.backoffMax then 2 * sleeps[k - 1] else config.backoffMax
    {
      NextSleep(config, k - 1);
    }
  }

  lemma {:induction false} TotalSleep(config: Restarting, sleeps: seq<nat>)
    requires SleepsAsPlanned(config, sleeps)
    ensures sleeps != [] ==> Sum(sleeps) <= config.backoff + Times(|sleeps| - 1, config.backoffMax)
  {
    if |sleeps| > 1 {
      TotalSleep(config, sleeps[..|sleeps| - 1]);
    } else if |sleeps| == 1 {
      assert sleeps[..0] == [];
    }
  }

  // ----- the restart loop

  /** What one wait of the manager ends with. Receiving when nothing more will arrive is how
      the manager learns that the queue has closed. */
  datatype Signal = Receive(written: bool) | ChildExit | HeartbeatRestart | SpawnFailure | Shutdown

  datatype Write = Write(generation: nat, msg: Json.Value)

  function Messages(attempts: seq<Write>): seq<Json.Value> {
    seq(|attempts|, i requires 0 <= i < |attempts| => attempts[i].msg)
  }

  ghost predicate InOrder(attempts: seq<Write>, spawns: nat) {
    && (forall i, j :: 0 <= i < j < |attempts| ==> attempts[i].generation <= attempts[j].generation)
    && (forall i :: 0 <= i < |attempts| ==> 1 <= attempts[i].generation <= spawns)
  }

  lemma AttemptNext(attempts: seq<Write>, incoming: seq<Json.Value>, generation: nat)
    requires Messages(attempts) <= incoming && |attempts| < |incoming|
    requires InOrder(attempts, generation) && generation > 0
    ensures var more := attempts + [Write(generation, incoming[|attempts|])];
      Messages(more) == incoming[..|more|] && InOrder(more, generation)
  {
    var more := attempts + [Write(generation, incoming[|attempts|])];
    forall i | 0 <= i < |more| ensures Messages(more)[i] == incoming[i] {
      if i < |attempts| { assert Messages(attempts)[i] == incoming[i]; }
    }
  }

  /** How often the manager asks its queue for a message. */
  function Receives(script: seq<Signal>, from: nat, to: nat): nat
    requires from <= to <= |script|
  {
    if from == to then 0 else Receives(script, from, to - 1) + if script[to - 1].Receive? then 1 else 0
  }

  /** The write loop stays with its child after this. */
  predicate GoesOn(signal: Signal) {
    signal == Receive(true) || signal == SpawnFailure
  }

  /** Why the loop ended; `offered` of the `received` messages asked for were there. */
  ghost predicate EndsRightly(script: seq<Signal>, from: nat, next: nat, received: nat, offered: nat, restart: bool)
    requires from <= next <= |script|
  {
    && offered <= received <= offered + 1
    && (received > offered ==> from < next && script[next - 1].Receive?)
    && (next < |script| ==> from < next && (received > offered || !GoesOn(script[next - 1])))
    && (restart <==> from < next && received == offered &&
                     (script[next - 1] == Receive(false) || script[next - 1].ChildExit? ||
                      script[next - 1].HeartbeatRestart?))
  }

  // ----- the manager of the step machine

  function WritesOf(attempts: seq<Protocol.Attempt>): seq<Write> {
    seq(|attempts|, i requires 0 <= i < |attempts| => Write(attempts[i].generation, attempts[i].item.body))
  }

  function Bodies(items: seq<Protocol.Item>): seq<Json.Value> {
    seq(|items|, i requires 0 <= i < |items| => items[i].body)
  }

  /** The step machine with its manager about to start, and these messages queued for it. */
  ghost predicate Begins(start: Protocol.System, config: Restarting, incoming: seq<Json.Value>) {
    && start.child == Protocol.Child(Protocol.Starting, 0, 0, [])
    && start.config.lazyStart == config.lazyStart && start.config.maxRestarts == config.maxRestarts
    && Bodies(start.queue.items) == incoming
  }

  /** From `start` the machine's manager gets to where the loop stands: so many children and
      restarts, these writes, and the rest of the messages still queued. */
  ghost predicate Mirrors(
    start: Protocol.System, sys: Protocol.System, manager: Protocol.Manager, spawns: nat, restarts: nat,
    attempts: seq<Write>, left: seq<Json.Value>)
  {
    && Protocol.Reaches(start, sys) && sys.config == start.config
    && sys.child.manager == manager && sys.child.generation == spawns && sys.child.restarts == restarts
    && WritesOf(sys.child.attempts) == attempts && Bodies(sys.queue.items) == left
  }

  /** It also ends where the loop ends. */
  ghost predicate EndsAs(start: Protocol.System, spawns: nat, restarts: nat, attempts: seq<Write>) {
    exists sys :: Mirrors(start, sys, Protocol.Stopped, spawns, restarts, attempts, [])
  }

  lemma Offers(
    start: Protocol.System, s: Protocol.System, spawns: nat, restarts: nat, attempts: seq<Write>, left: seq<Json.Value>)
    returns (n: Protocol.System)
    requires Mirrors(start, s, Protocol.Attached(None), spawns, restarts, attempts, left) && left != []
    ensures Mirrors(start, n, Protocol.Attached(None), spawns, restarts, attempts + [Write(spawns, left[0])], left[1..])
  {
    var m := Protocol.ManagerTurn(start, s, Protocol.TakeNext);
    n := Protocol.ManagerTurn(start, m, Protocol.WriteToChild);
    hide Protocol.Reaches;
    assert Bodies(s.queue.items)[0] == s.queue.items[0].body;
    assert Bodies(n.queue.items) == Bodies(s.queue.items)[1..];
    assert WritesOf(n.child.attempts) == WritesOf(s.child.attempts) + [Write(spawns, left[0])];
  }

  lemma Spawns(
    start: Protocol.System, s: Protocol.System, spawns: nat, attempts: seq<Write>, left: seq<Json.Value>)
    returns (n: Protocol.System)
    requires Mirrors(start, s, Protocol.Starting, spawns, spawns, attempts, left)
    requires !(start.config.lazyStart && spawns == 0)
    requires start.config.maxRestarts == 0 || spawns < start.config.maxRestarts
    ensures Mirrors(start, n, Protocol.Attached(None), spawns + 1, spawns, attempts, left)
  {
    n := Protocol.ManagerTurn(start, s, Protocol.Spawn);
  }

  /** Started lazily, the manager takes the first message and offers it to the first child. */
  lemma SpawnsForFirst(start: Protocol.System, s: Protocol.System, left: seq<Json.Value>) returns (n: Protocol.System)
    requires Mirrors(start, s, Protocol.Starting, 0, 0, [], left) && left != [] && start.config.lazyStart
    ensures Mirrors(start, n, Protocol.Attached(None), 1, 0, [Write(1, left[0])], left[1..])
  {
    var a := Protocol.ManagerTurn(start, s, Protocol.TakeFirst);
    var b := Protocol.ManagerTurn(start, a, Protocol.Spawn);
    n := Protocol.ManagerTurn(start, b, Protocol.WriteToChild);
    hide Protocol.Reaches;
    assert Bodies(s.queue.items)[0] == s.queue.items[0].body;
    assert Bodies(n.queue.items) == Bodies(s.queue.items)[1..];
    assert s.child.attempts == [] && WritesOf(n.child.attempts) == [Write(1, left[0])];
  }

  lemma Replaces(
    start: Protocol.System, s: Protocol.System, spawns: nat, restarts: nat, attempts: seq<Write>, left: seq<Json.Value>,
    restart: bool)
    returns (n: Protocol.System)
    requires Mirrors(start, s, Protocol.Attached(None), spawns, restarts, attempts, left)
    ensures if restart then Mirrors(start, n, Protocol.Starting, spawns, restarts + 1, attempts, left)
            else Mirrors(start, n, Protocol.Stopped, spawns, restarts, attempts, [])
  {
    var a := Protocol.ManagerTurn(start, s, Protocol.Detach(restart));
    var b := Protocol.ManagerTurn(start, a, Protocol.SendReset);
    n := Protocol.ManagerTurn(start, b, Protocol.ClearState);
  }

  lemma Stops(
    start: Protocol.System, s: Protocol.System, spawns: nat, restarts: nat, attempts: seq<Write>, left: seq<Json.Value>)
    requires Mirrors(start, s, Protocol.Starting, spawns, restarts, attempts, left)
    ensures EndsAs(start, spawns, restarts, attempts)
  {
    var n := Protocol.ManagerTurn(start, s, Protocol.StopManager);
    assert Mirrors(start, n, Protocol.Stopped, spawns, restarts, attempts, []);
  }

  /** A first message that no child could be started for is lost. */
  lemma StopsWithFirst(start: Protocol.System, s: Protocol.System, left: seq<Json.Value>)
    requires Mirrors(start, s, Protocol.Starting, 0, 0, [], left) && left != [] && start.config.lazyStart
    ensures EndsAs(start, 0, 0, [])
  {
    var a := Protocol.ManagerTurn(start, s, Protocol.TakeFirst);
    var n := Protocol.ManagerTurn(start, a, Protocol.StopManager);
    assert Mirrors(start, n, Protocol.Stopped, 0, 0, [], []);
  }

  // ----- the loops

  /** The write loop of one child: feeds it until it has to be replaced or everything stops. It
      asks the queue once for every message it offers; once more, and for the last time, when
      the queue has closed. It wants another child exactly when the last thing that happened is
      a failed write, the child's exit or the heartbeat's signal, and stops early for nothing
      but these, a shutdown and the end of the queue. */
  method FeedChild(
    generation: nat, incoming: seq<Json.Value>, script: seq<Signal>, before: seq<Write>, from: nat,
    ghost start: Protocol.System, ghost now: Protocol.System, ghost restarts: nat)
    returns (attempts: seq<Write>, next: nat, restart: bool, ghost sys: Protocol.System)
    requires generation > 0 && InOrder(before, generation) && Messages(before) <= incoming && from <= |script|
    requires Mirrors(start, now, Protocol.Attached(None), generation, restarts, before, incoming[|before|..])
    ensures from <= next <= |script| && (restart ==> from < next)
    ensures before <= attempts && InOrder(attempts, generation) && Messages(attempts) <= incoming
    ensures forall k :: |before| <= k < |attempts| ==> attempts[k].generation == generation
    ensures forall k :: from <= k < next - 1 ==> GoesOn(script[k])
    ensures EndsRightly(script, from, next, Receives(script, from, next), |attempts| - |before|, restart)
    ensures Receives(script, from, next) > |attempts| - |before| ==> |attempts| == |incoming|
    ensures Mirrors(start, sys, Protocol.Attached(None), generation, restarts, attempts, incoming[|attempts|..])
  {
    hide Mirrors;
    attempts, next, restart, sys := before, from, false, now;
    while next < |script|
      invariant from <= next <= |script|
      invariant before <= attempts && InOrder(attempts, generation) && Messages(attempts) <= incoming
      invariant forall k :: |before| <= k < |attempts| ==> attempts[k].generation == generation
      invariant forall k :: from <= k < next ==> GoesOn(script[k])
      invariant Receives(script, from, next) == |attempts| - |before|
      invariant Mirrors(start, sys, Protocol.Attached(None), generation, restarts, attempts, incoming[|attempts|..])
    {
      var signal := script[next];
      next := next + 1;
      match signal
      case Receive(written) =>
        if |attempts| == |incoming| { return attempts, next, false, sys; }
        AttemptNext(attempts, incoming, generation);
        sys := Offers(start, sys, generation, restarts, attempts, incoming[|attempts|..]);
        attempts := attempts + [Write(generation, incoming[|attempts|])];
        if !written { return attempts, next, true, sys; }
      case ChildExit => return attempts, next, true, sys;
      case HeartbeatRestart => return attempts, next, true, sys;
      case SpawnFailure =>
      case Shutdown => return attempts, next, false, sys;
    }
  }

  /** What comes before a child is started: the wait for the first message, if the start is lazy,
      the check of the limit, and the attempt to start it. */
  method WaitToStart(
    config: Restarting, incoming: seq<Json.Value>, script: seq<Signal>, from: nat, spawns: nat, attempts: seq<Write>,
    ghost start: Protocol.System, ghost sys: Protocol.System)
    returns (go: bool, next: nat)
    requires from <= |script| && start.config.lazyStart == config.lazyStart && (spawns == 0 ==> attempts == [])
    requires |attempts| <= |incoming|
    requires Mirrors(start, sys, Protocol.Starting, spawns, spawns, attempts, incoming[|attempts|..])
    ensures from <= next <= |script|
    ensures go ==> config.maxRestarts == 0 || spawns < config.maxRestarts
    ensures go && config.lazyStart && spawns == 0 ==> incoming != []
    ensures !go ==> EndsAs(start, spawns, spawns, attempts)
  {
    hide Mirrors, EndsAs;
    go, next := false, from;
    var first := config.lazyStart && spawns == 0;
    ghost var left := incoming[|attempts|..];
    if (next < |script| && script[next].Shutdown?) ||
       (first && (next == |script| || !script[next].Receive? || incoming == []))
    {
      Stops(start, sys, spawns, spawns, attempts, left);
      return;
    }
    if first { next := next + 1; }
    if (config.maxRestarts > 0 && spawns >= config.maxRestarts) || (next < |script| && script[next].SpawnFailure?) {
      if first { StopsWithFirst(start, sys, left); } else { Stops(start, sys, spawns, spawns, attempts, left); }
      return;
    }
    go := true;
  }

  /** The child is there; a message that was waited for goes to it before anything else. */
  method StartChild(
    config: Restarting, incoming: seq<Json.Value>, spawns: nat, before: seq<Write>,
    ghost start: Protocol.System, ghost sys: Protocol.System)
    returns (attempts: seq<Write>, ghost now: Protocol.System)
    requires spawns > 0 && start.config.lazyStart == config.lazyStart && start.config.maxRestarts == config.maxRestarts
    requires config.maxRestarts == 0 || spawns - 1 < config.maxRestarts
    requires config.lazyStart && spawns == 1 ==> incoming != [] && before == []
    requires Messages(before) <= incoming && InOrder(before, spawns - 1)
    requires Mirrors(start, sys, Protocol.Starting, spawns - 1, spawns - 1, before, incoming[|before|..])
    ensures attempts == if config.lazyStart && spawns == 1 then [Write(1, incoming[0])] else before
    ensures Messages(attempts) <= incoming && InOrder(attempts, spawns)
    ensures Mirrors(start, now, Protocol.Attached(None), spawns, spawns - 1, attempts, incoming[|attempts|..])
  {
    hide Mirrors;
    if config.lazyStart && spawns == 1 {
      AttemptNext([], incoming, 1);
      assert [] + [Write(1, incoming[0])] == [Write(1, incoming[0])];
      attempts := [Write(1, incoming[0])];
      now := SpawnsForFirst(start, sys, incoming[0..]);
    } else {
      attempts := before;
      now := Spawns(start, sys, spawns - 1, before, incoming[|before|..]);
    }
  }

  /** `server_manager`. With a limit m > 0 it starts at most m children, never sleeps longer than
      `SleepAt` says, and at most initial + (m - 1) * max in all. It offers the queued messages in
      order, each to one child. Started lazily, the first child comes after the first message and
      is offered it first. All of it is a run of the step machine's manager. */
  method ServerManager(config: Restarting, incoming: seq<Json.Value>, script: seq<Signal>, ghost start: Protocol.System)
    returns (spawns: nat, sleeps: seq<nat>, attempts: seq<Write>)
    requires Begins(start, config, incoming)
    ensures config.maxRestarts > 0 ==> spawns <= config.maxRestarts
    ensures |sleeps| <= spawns <= |sleeps| + 1
    ensures SleepsAsPlanned(config, sleeps) && SleepsDouble(config, sleeps)
    ensures config.maxRestarts > 0 ==> Sum(sleeps) <= config.backoff + (config.maxRestarts - 1) * config.backoffMax
    ensures Messages(attempts) <= incoming && InOrder(attempts, spawns)
    ensures config.lazyStart && spawns > 0 ==> incoming != [] && [Write(1, incoming[0])] <= attempts
    ensures EndsAs(start, spawns, |sleeps|, attempts)
  {
    hide Mirrors, EndsAs, Begins, SleepAt, EndsRightly, Receives, GoesOn, Sum, Power2, Min,
         SleepsAsPlanned, SleepsDouble;
    ghost var sys := start;
    MirrorsAtFirst(start, config, incoming);
    spawns, sleeps, attempts := 0, [], [];
    var backoff, next, restart := config.backoff, 0, true;
    NothingOffered(config, incoming);
    while restart
      invariant 0 <= next <= |script|
      invariant config.maxRestarts > 0 ==> spawns <= config.maxRestarts
      invariant if restart then |sleeps| == spawns else |sleeps| <= spawns <= |sleeps| + 1
      invariant SleepsAsPlanned(config, sleeps) && backoff == SleepAt(config, |sleeps|)
      invariant Messages(attempts) <= incoming && InOrder(attempts, spawns)
      invariant spawns == 0 ==> attempts == []
      invariant config.lazyStart && spawns > 0 ==> incoming != [] && [Write(1, incoming[0])] <= attempts
      invariant restart ==> Mirrors(start, sys, Protocol.Starting, spawns, spawns, attempts, incoming[|attempts|..])
      invariant !restart ==> EndsAs(start, spawns, |sleeps|, attempts)
      decreases restart, |script| - next
    {
      var go;
      go, next := WaitToStart(config, incoming, script, next, spawns, attempts, start, sys);
      if !go { break; }
      spawns := spawns + 1;
      attempts, sys := StartChild(config, incoming, spawns, attempts, start, sys);
      attempts, next, restart, sys := FeedChild(spawns, incoming, script, attempts, next, start, sys, spawns - 1);
      sys := Replaces(start, sys, spawns, spawns - 1, attempts, incoming[|attempts|..], restart);
      if restart {
        SleepsOnceMore(config, sleeps);
        sleeps := sleeps + [backoff];
        backoff := Min(backoff * 2, config.backoffMax);
      } else {
        Ended(start, sys, spawns, |sleeps|, attempts);
      }
    }
    PlannedSleepsDouble(config, sleeps);
    if config.maxRestarts > 0 { BoundedDowntime(config, spawns, sleeps); }
  }

  lemma MirrorsAtFirst(start: Protocol.System, config: Restarting, incoming: seq<Json.Value>)
    requires Begins(start, config, incoming)
    ensures Mirrors(start, start, Protocol.Starting, 0, 0, [], incoming[0..])
    ensures start.config.lazyStart == config.lazyStart && start.config.maxRestarts == config.maxRestarts
  {
    Protocol.Reached(start);
    assert WritesOf([]) == [] && incoming[0..] == incoming;
  }

  lemma NothingOffered(config: Restarting, incoming: seq<Json.Value>)
    ensures Messages([]) <= incoming && InOrder([], 0)
    ensures SleepsAsPlanned(config, []) && SleepAt(config, 0) == config.backoff
  {
  }

  lemma Ended(start: Protocol.System, sys: Protocol.System, spawns: nat, restarts: nat, attempts: seq<Write>)
    requires Mirrors(start, sys, Protocol.Stopped, spawns, restarts, attempts, [])
    ensures EndsAs(start, spawns, restarts, attempts)
  {
  }

  /** With a limit m > 0 the manager sleeps at most initial + (m - 1) * max in all. */
  lemma BoundedDowntime(config: Restarting, spawns: nat, sleeps: seq<nat>)
    requires config.maxRestarts > 0 && |sleeps| <= spawns <= config.maxRestarts
    requires SleepsAsPlanned(config, sleeps)
    ensures Sum(sleeps) <= config.backoff + (config.maxRestarts - 1) * config.backoffMax
  {
    TotalSleep(config, sleeps);
    var n := if sleeps == [] then 0 else |sleeps| - 1;
    TimesIsProduct(n, config.backoffMax);
    Scaled(n, config.maxRestarts - 1, config.backoffMax);
  }
}
