/** The daemon's tasks as they are programmed: a handler runs its lock regions and channel
    operations in sequence. Each handler is proved to be a run of the step machine, so what
    holds of every run holds of every state a handler leaves behind, and the state it leaves
    is the only one in which that task could have come to rest undisturbed. */
module Tasks {
  import opened Wrappers
  import opened Json
  import opened Shared
  import opened Protocol
  import opened LockedState
  import opened Effects
  import Ids

  // ----- one reader on its own

  /** The steps of a reader that already has a message in hand. */
  predicate IsOwn(a: ClientAction) {
    !(a.Receive? || a.WriterGone? || a.HangUp? || a.DecodeError? || a.NoticeTimeout? || a.ReportTimeout? ||
      a.LeaveClient?)
  }

  ghost predicate OwnRun(s: System, c: nat, actions: seq<ClientAction>, n: System)
    decreases |actions|
  {
    if actions == [] then n == s
    else
      && ClientEnabled(s, c, actions[0]) && IsOwn(actions[0])
      && OwnRun(ClientStep(s, c, actions[0]), c, actions[1..], n)
  }

  /** Client `c`'s reader can take the system from `s` to `n` by itself. */
  ghost predicate Continues(s: System, n: System, c: nat) {
    exists actions :: OwnRun(s, c, actions, n)
  }

  /** Either the message has been dealt with, or the queue to the child is full. */
  ghost predicate Resting(s: System, c: nat) {
    && c in s.readers
    && (s.readers[c].Idle? || (s.readers[c].Sending? && s.queue.open && !HasRoom(s.queue)))
  }

  lemma {:induction false} OwnRunSnoc(s: System, c: nat, actions: seq<ClientAction>, n: System, a: ClientAction)
    requires OwnRun(s, c, actions, n) && ClientEnabled(n, c, a) && IsOwn(a)
    ensures OwnRun(s, c, actions + [a], ClientStep(n, c, a))
    decreases |actions|
  {
    if actions == [] {
      assert [] + [a] == [a] && [a][1..] == [];
    } else {
      OwnRunSnoc(ClientStep(s, c, actions[0]), c, actions[1..], n, a);
      assert (actions + [a])[1..] == actions[1..] + [a];
    }
  }

  lemma Advance(start: System, s: System, n: System, c: nat, a: ClientAction)
    requires Reaches(start, n) && Continues(s, n, c) && ClientEnabled(n, c, a) && IsOwn(a)
    ensures Reaches(start, ClientStep(n, c, a)) && Continues(s, ClientStep(n, c, a), c)
  {
    Extend(start, n, ByClient(c, a));
    var actions :| OwnRun(s, c, actions, n);
    OwnRunSnoc(s, c, actions, n, a);
  }

  /** With a message in hand a reader never has a choice. */
  lemma OnlyOneNext(s: System, c: nat, a: ClientAction, b: ClientAction)
    requires ClientEnabled(s, c, a) && ClientEnabled(s, c, b) && IsOwn(a) && IsOwn(b)
    ensures a == b && !Resting(s, c)
  {
  }

  /** However a message is handled without interruption, it ends in the same state. */
  lemma {:induction false} OneMessageOneOutcome(
    s: System, c: nat, actions: seq<ClientAction>, n: System, others: seq<ClientAction>, m: System)
    requires OwnRun(s, c, actions, n) && OwnRun(s, c, others, m) && Resting(n, c) && Resting(m, c)
    ensures n == m && actions == others
    decreases |actions|
  {
    if actions != [] && others != [] {
      OnlyOneNext(s, c, actions[0], others[0]);
      OneMessageOneOutcome(ClientStep(s, c, actions[0]), c, actions[1..], n, others[1..], m);
    } else if actions != [] {
      OnlyOneNext(s, c, actions[0], actions[0]);
    } else if others != [] {
      OnlyOneNext(s, c, others[0], others[0]);
    }
  }

  // ----- the router and the reaper on their own

  /** What becomes of a message from a child when nothing interrupts the router. */
  function Routed(s: System): System
    requires s.routing.events != [] && s.routing.events[0].Message?
  {
    var a := RouteStep(s);
    if !a.routing.router.Matched? then a
    else
      var b := if a.routing.router.entry.isInitialize then StoreReplyStep(a) else a;
      var d := LookUpStep(b);
      if d.routing.router.Holding? then DeliverStep(d) else d
  }

  ghost function Reaped(s: System, order: seq<string>): System
    requires Enumerates(order, ExpiredKeys(s.shared, s.now, s.config.requestTimeout))
  {
    if order == [] then ReapStep(s, order) else ReportReapedStep(ReapStep(s, order))
  }

  function Bodies(items: seq<Item>): seq<Value> {
    seq(|items|, i requires 0 <= i < |items| => items[i].body)
  }

  /** Where a reader waits for room in the queue: the request in hand, and what comes after it. */
  datatype Blocked = Blocked(req: Request, id: string, rest: seq<Request>)

  /** A step that does not send to the queue leaves it alone. */
  lemma QueueUnlessSent(s: System, c: nat, a: ClientAction)
    requires ClientEnabled(s, c, a)
    ensures !(a.Announce? || a.ForwardNotice? || a.Enqueue?) ==> ClientStep(s, c, a).queue == s.queue
    ensures !a.Receive? ==> |ClientStep(s, c, a).book.requests| == |s.book.requests|
  {
  }

  class Daemon {
    const mux: MuxState
    const requestTimeout: nat
    var queue: seq<Value>
    var queueOpen: bool
    var events: seq<Event>
    /** `Instant::now()` */
    var clock: nat
    /** the next ticket */
    var arrivals: nat
    ghost const start: System
    ghost var sys: System

    /** The fields are those of a reachable state whose router has these events to handle. */
    ghost predicate Matches(queued: seq<Event>)
      reads this, mux
    {
      && Initial(start) && Reaches(start, sys)
      && sys.config.requestTimeout == requestTimeout
      && sys.shared == mux.View()
      && sys.queue.open == queueOpen && Bodies(sys.queue.items) == queue
      && sys.routing.events == queued
      && sys.now == clock && |sys.book.requests| == arrivals
    }

    /** The fields are those of a reachable state of the machine. */
    ghost predicate Valid()
      reads this, mux
    {
      Matches(events)
    }

    constructor (config: Config, now: nat)
      ensures Valid() && fresh(mux)
      ensures sys.config == config && sys.now == now && sys.readers == map[] && sys.shared.clients == {}
    {
      mux := new MuxState();
      requestTimeout := config.requestTimeout;
      queue, queueOpen, events := [], true, [];
      clock, arrivals := now, 0;
      var s := System(config, now, 0, State(1, 1, {}, map[], map[], None, [], false, map[], false), map[],
                      Queue([], true, []), Child(Starting, 0, 0, []), Routing([], Listening, 0, 0), Reaping([], now),
                      Book([], [], {}));
      start, sys := s, s;
      Reached(s);
    }

    /** A connection is accepted. */
    method Accept() returns (c: nat)
      requires Valid()
      modifies this, mux
      ensures Valid() && sys == Apply(old(sys), Connect) && c == old(sys).shared.nextClient
    {
      c := mux.RegisterClient(clock);
      Extend(start, sys, Connect);
      sys := Apply(sys, Connect);
    }

    ghost method Took(c: nat, a: ClientAction, from: System)
      requires Reaches(start, sys) && Continues(from, sys, c) && ClientEnabled(sys, c, a) && IsOwn(a)
      modifies this`sys
      ensures sys == ClientStep(old(sys), c, a) && Reaches(start, sys) && Continues(from, sys, c)
      ensures sys.shared == Changed(old(sys).shared, c, old(sys).now, ChangeBy(old(sys).readers[c], a))
      ensures sys.readers == old(sys).readers[c := ReaderAfter(old(sys), c, a)]
      ensures sys == old(sys).(shared := sys.shared, readers := sys.readers, queue := sys.queue, book := sys.book)
      ensures |sys.book.requests| == |old(sys).book.requests|
      ensures !(a.Announce? || a.ForwardNotice? || a.Enqueue?) ==> sys.queue == old(sys).queue
    {
      hide ClientStep, Continues, Reaches;
      Advance(start, from, sys, c, a);
      ClientStepShared(sys, c, a);
      ClientStepReader(sys, c, a);
      ClientStepElsewhere(sys, c, a);
      QueueUnlessSent(sys, c, a);
      sys := ClientStep(sys, c, a);
    }

    /** `try_send`: a full or closed queue drops the message. */
    method TrySend(msg: Value)
      modifies this`queue
      ensures queue == if queueOpen && |old(queue)| < MAX_QUEUE then old(queue) + [msg] else old(queue)
    {
      if queueOpen && |queue| < MAX_QUEUE { queue := queue + [msg]; }
    }

    /** The send that waits for room: `Some(false)` when the queue has closed, nothing while it is full. */
    method Send(msg: Value) returns (sent: Option<bool>)
      modifies this`queue
      ensures sent == if !queueOpen then Some(false) else if |old(queue)| < MAX_QUEUE then Some(true) else None
      ensures queue == if sent == Some(true) then old(queue) + [msg] else old(queue)
    {
      if !queueOpen { return Some(false); }
      if |queue| >= MAX_QUEUE { return None; }
      queue := queue + [msg];
      return Some(true);
    }

    ghost predicate Handling(c: nat, from: System)
      reads this, mux
    {
      Valid() && Continues(from, sys, c) && c in sys.readers
    }

    /** The reader has come to rest: with its message dealt with, or where `b` says. */
    ghost predicate AtRest(c: nat, b: Option<Blocked>)
      reads this
    {
      && Resting(sys, c)
      && match b
         case None => sys.readers[c].Idle?
         case Some(w) => sys.readers[c] == Sending(w.req, w.id, w.rest)
    }

    /** The second half of forwarding: the request goes to the queue under its global id. */
    method SendRequest(c: nat, w: Blocked, ghost from: System) returns (b: Option<Blocked>)
      requires Handling(c, from) && sys.readers[c] == Sending(w.req, w.id, w.rest)
      modifies this
      ensures Handling(c, from)
      ensures b.Some? ==> sys == old(sys) && AtRest(c, b)
      ensures b.None? ==> sys.readers[c] == Flushing(w.rest)
    {
      hide Continues, Reaches;
      var sent := Send(SetId(w.req.body, Str(w.id)));
      if sent == Some(true) { Took(c, Enqueue, from); }
      if sent == Some(false) { Took(c, EnqueueClosed, from); }
      b := if sent == None then Some(w) else None;
    }

    /** `forward_request`, for the first of the requests in hand. */
    method ForwardRequest(c: nat, todo: seq<Request>, ghost from: System) returns (b: Option<Blocked>)
      requires Handling(c, from) && todo != [] && sys.readers[c] == Flushing(todo)
      modifies this, mux
      ensures Handling(c, from)
      ensures b.Some? ==> AtRest(c, b)
      ensures b.None? ==> sys.readers[c] == Flushing(todo[1..])
    {
      hide ClientStep, Continues, Reaches;
      var id := mux.FileOrReject(c, todo[0], false, clock);
      Took(c, ForwardNext, from);
      if id == None { return None; }
      b := SendRequest(c, Blocked(todo[0], id.value, todo[1..]), from);
    }

    /** Forwards the requests in hand, oldest first. */
    method FlushBuffered(c: nat, buffered: seq<Request>, ghost from: System) returns (b: Option<Blocked>)
      requires Handling(c, from) && sys.readers[c] == Flushing(buffered)
      modifies this, mux
      ensures Handling(c, from) && AtRest(c, b)
    {
      hide ClientStep, Continues, Reaches;
      var i := 0;
      while i < |buffered|
        invariant 0 <= i <= |buffered|
        invariant Handling(c, from) && sys.readers[c] == Flushing(buffered[i..])
      {
        b := ForwardRequest(c, buffered[i..], from);
        if b.Some? { return; }
        i := i + 1;
      }
      Took(c, FlushDone, from);
      b := None;
    }

    /** What a reader that waits for room does once it is scheduled again: it sends what it has
        in hand, when there is room now, and goes on with the rest. */
    method Resume(c: nat, w: Blocked) returns (b: Option<Blocked>)
      requires Valid() && c in sys.readers && sys.readers[c] == Sending(w.req, w.id, w.rest)
      modifies this, mux
      ensures Valid() && Continues(old(sys), sys, c) && AtRest(c, b)
      ensures old(HasRoom(sys.queue) || !sys.queue.open) ==> sys != old(sys)
    {
      ghost var from := sys;
      assert OwnRun(from, c, [], sys);
      b := SendRequest(c, w, from);
      if b.Some? { return; }
      b := FlushBuffered(c, w.rest, from);
    }

    method AnnounceNow(c: nat, msg: Value, ghost from: System)
      requires Handling(c, from) && sys.readers[c] == Announcing(msg)
      modifies this
      ensures Handling(c, from) && sys.readers[c] == Completing
    {
      hide Continues, Reaches;
      TrySend(msg);
      Took(c, Announce, from);
    }

    /** The first client to finish its handshake announces that to the child. */
    method AnnounceIfFirst(c: nat, msg: Value, ghost from: System)
      requires Handling(c, from) && sys.readers[c] == Noted(msg, false) && Method(msg) == INITIALIZED
      modifies this, mux
      ensures Handling(c, from) && sys.readers[c] == Completing
    {
      hide ClientStep, Continues, Reaches;
      var announce := mux.ClaimInitialized();
      Took(c, ClaimInitialized, from);
      if announce { AnnounceNow(c, msg, from); }
    }

    /** The handshake notification: for every client the end of buffering. */
    method HandleInitialized(c: nat, msg: Value, ghost from: System) returns (b: Option<Blocked>)
      requires Handling(c, from) && sys.readers[c] == Noted(msg, false) && Method(msg) == INITIALIZED
      modifies this, mux
      ensures Handling(c, from) && AtRest(c, b)
    {
      hide ClientStep, Continues, Reaches;
      AnnounceIfFirst(c, msg, from);
      var buffered := mux.CompleteHandshake(c);
      Took(c, FinishHandshake, from);
      b := FlushBuffered(c, buffered, from);
    }

    method FileInitialize(c: nat, req: Request, ghost from: System) returns (id: Option<string>)
      requires Handling(c, from) && sys.readers[c] == Asked(req, false) && Method(req.body) == INITIALIZE
      modifies this, mux
      ensures Handling(c, from) && sys.readers[c] == if id.Some? then Sending(req, id.value, []) else Idle
    {
      hide ClientStep, Continues, Reaches, Initialize, Ids.GlobalId;
      id := mux.InitializeRequest(c, req, clock);
      Took(c, InitializeRequest, from);
    }

    method HandleInitialize(c: nat, req: Request, ghost from: System) returns (b: Option<Blocked>)
      requires Handling(c, from) && sys.readers[c] == Asked(req, false) && Method(req.body) == INITIALIZE
      modifies this, mux
      ensures Handling(c, from) && AtRest(c, b)
    {
      hide ClientStep, Continues, Reaches;
      var id := FileInitialize(c, req, from);
      if id == None { return None; }
      b := SendRequest(c, Blocked(req, id.value, []), from);
      if b.None? { Took(c, FlushDone, from); }
    }

    /** A request other than an initialize: held back until the handshake is over. */
    method HandleRequest(c: nat, req: Request, ghost from: System) returns (b: Option<Blocked>)
      requires Handling(c, from) && sys.readers[c] == Asked(req, false) && Method(req.body) != INITIALIZE
      modifies this, mux
      ensures Handling(c, from) && AtRest(c, b)
    {
      hide ClientStep, Continues, Reaches;
      var complete := mux.IsHandshakeComplete(c);
      Took(c, CheckHandshake, from);
      if complete { b := FlushBuffered(c, [req], from); }
      else {
        BufferAway(c, req, from);
        b := None;
      }
    }

    method BufferAway(c: nat, req: Request, ghost from: System)
      requires Handling(c, from) && sys.readers[c] == Buffering(req)
      modifies this, mux
      ensures Handling(c, from) && sys.readers[c].Idle?
    {
      hide ClientStep, Continues, Reaches;
      mux.BufferMessage(c, req);
      Took(c, BufferRequest, from);
    }

    method HandleNotice(c: nat, msg: Value, ghost from: System)
      requires Handling(c, from) && sys.readers[c] == Noted(msg, false) && Method(msg) != INITIALIZED
      modifies this, mux
      ensures Handling(c, from) && sys.readers[c].Idle?
    {
      hide Continues, Reaches;
      TrySend(msg);
      Took(c, ForwardNotice, from);
    }

    method RejectMessage(c: nat, msg: Value, ticket: nat, ghost from: System)
      requires Handling(c, from)
      requires sys.readers[c] == (if Get(msg, "id").Some? then Asked(Request(ticket, msg), true) else Noted(msg, true))
      modifies this, mux
      ensures Handling(c, from) && sys.readers[c].Idle?
    {
      hide ClientStep, Continues, Reaches;
      var reply := ErrorResponse(LocalId(msg), TOO_LARGE);
      mux.Send(c, if Get(msg, "id").Some? then Failure(ticket, reply) else Notice(reply));
      Took(c, RejectTooLarge, from);
    }

    /** `handle_client_message`, for a message whose encoded size was already compared with the
        limit. It returns with the message dealt with, or where the reader waits for room in the
        queue and `Resume` takes it up; either way in the one state (see `OneMessageOneOutcome`)
        the reader's own steps lead to. */
    method HandleClientMessage(c: nat, msg: Value, tooLarge: bool) returns (b: Option<Blocked>)
      requires Valid() && c in sys.readers && sys.readers[c].Idle?
      requires sys.config.plainHandshakes ==> !ForgesId(msg)
      modifies this, mux
      ensures Valid()
      ensures Continues(ReceiveStep(old(sys), c, msg, tooLarge), sys, c)
      ensures AtRest(c, b)
    {
      hide ClientStep, Reaches;
      var ticket := arrivals;
      if IsRequest(msg, tooLarge) { arrivals := arrivals + 1; }
      ghost var from := Received(c, msg, tooLarge);
      b := None;
      if tooLarge { RejectMessage(c, msg, ticket, from); }
      else if Method(msg) == INITIALIZED { b := HandleInitialized(c, msg, from); }
      else if Get(msg, "id").None? { HandleNotice(c, msg, from); }
      else if Method(msg) == INITIALIZE { b := HandleInitialize(c, Request(ticket, msg), from); }
      else { b := HandleRequest(c, Request(ticket, msg), from); }
    }

    ghost method Received(c: nat, msg: Value, tooLarge: bool) returns (from: System)
      requires Reaches(start, sys) && ClientEnabled(sys, c, Receive(msg, tooLarge))
      modifies this`sys
      ensures from == sys == ReceiveStep(old(sys), c, msg, tooLarge)
      ensures Reaches(start, sys) && Continues(from, sys, c)
    {
      Extend(start, sys, ByClient(c, Receive(msg, tooLarge)));
      from := ReceiveStep(sys, c, msg, tooLarge);
      sys := from;
      assert OwnRun(from, c, [], sys);
    }

    /** The end of the reader loop. */
    method Disconnect(c: nat)
      requires Valid() && c in sys.readers && sys.readers[c].Idle?
      modifies this, mux
      ensures Valid() && sys == LeaveStep(SetReader(old(sys), c, Leaving), c)
    {
      Extend(start, sys, ByClient(c, HangUp));
      sys := ClientStep(sys, c, HangUp);
      mux.UnregisterClient(c);
      Extend(start, sys, ByClient(c, LeaveClient));
      sys := ClientStep(sys, c, LeaveClient);
    }

    ghost method RouterTook(a: RouterAction)
      requires Reaches(start, sys) && RouterEnabled(sys, a)
      modifies this`sys
      ensures sys == RouterStep(old(sys), a) && Reaches(start, sys)
    {
      Extend(start, sys, ByRouter(a));
      sys := RouterStep(sys, a);
    }

    /** `handle_server_message`, after the id was found in the pending table. */
    method AnswerClient(msg: Value, entry: Pending)
      requires Valid() && sys.routing.router.Matched? && !sys.routing.router.stored
      requires sys.routing.router.msg == msg && sys.routing.router.entry == entry
      modifies this, mux
      ensures Valid() && events == old(events)
      ensures var b := if entry.isInitialize then StoreReplyStep(old(sys)) else old(sys);
        var d := LookUpStep(b);
        sys == if d.routing.router.Holding? then DeliverStep(d) else d
    {
      if entry.isInitialize {
        mux.CacheInitialize(msg);
        RouterTook(StoreReply);
      }
      var found := entry.client in mux.clients;
      RouterTook(LookUpClient);
      if found {
        mux.SendOnClone(entry, msg);
        RouterTook(DeliverReply);
      }
    }

    /** A message of a child that is not broadcast. */
    method RouteById(msg: Value, ghost queued: seq<Event>)
      requires sys.routing.router.Listening? && !IsBroadcast(msg)
      requires queued != [] && queued[0].Message? && queued[0].msg == msg
      requires events == queued[1..] && Matches(queued)
      modifies this, mux
      ensures Valid() && events == old(events) && sys.routing.router.Listening? && sys == Routed(old(sys))
    {
      var id := RoutingKey(msg);
      if id == None {
        RouterTook(Route);
        return;
      }
      var entry := mux.RemovePending(id.value);
      RouterTook(Route);
      if entry.Some? { AnswerClient(msg, entry.value); }
    }

    /** One turn of the router's loop: `handle_server_events_with_heartbeat`. */
    method HandleNextEvent() returns (ghost order: seq<string>)
      requires Valid() && events != [] && sys.routing.router.Listening?
      modifies this, mux
      ensures Valid() && events == old(events)[1..] && sys.routing.router.Listening?
      ensures old(events)[0].Message? ==> sys == Routed(old(sys))
      ensures old(events)[0].ResetEvent? ==>
        Enumerates(order, old(sys).shared.pending.Keys) && sys == HandleResetStep(old(sys), order)
    {
      var event := events[0];
      events := events[1..];
      order := [];
      if event.ResetEvent? {
        order := mux.ResetState(RESTARTED);
        RouterTook(HandleReset(order));
      } else if IsBroadcast(event.msg) {
        mux.BroadcastAll(event.msg);
        RouterTook(Route);
      } else {
        RouteById(event.msg, old(events));
      }
    }

    method ReportExpired(expired: seq<Owed>)
      requires Valid() && sys.reaping.hand == expired
      modifies this, mux
      ensures Valid()
      ensures sys == if expired == [] then old(sys) else ReportReapedStep(old(sys))
    {
      if |expired| > 0 {
        mux.FailAll(expired, TIMED_OUT);
        Extend(start, sys, ByReaper(ReportReaped));
        sys := ReportReapedStep(sys);
      }
    }

    /** One tick of `reap_timeouts`. */
    method ReapTimeouts() returns (ghost order: seq<string>)
      requires Valid() && sys.reaping.hand == []
      modifies this, mux
      ensures Valid() && sys.reaping.hand == []
      ensures Enumerates(order, ExpiredKeys(old(sys).shared, old(sys).now, requestTimeout))
      ensures sys == Reaped(old(sys), order)
    {
      var expired: seq<Owed>;
      expired, order := mux.TakeExpired(clock, requestTimeout);
      Extend(start, sys, ByReaper(Reap(order)));
      sys := ReapStep(sys, order);
      ReportExpired(expired);
    }

    ghost method ManagerTook(a: ManagerAction)
      requires Reaches(start, sys) && ManagerEnabled(sys, a)
      modifies this`sys
      ensures sys == ManagerStep(old(sys), a) && Reaches(start, sys)
    {
      Extend(start, sys, ByManager(a));
      sys := ManagerStep(sys, a);
    }

    /** One turn of the manager's write loop that receives a message: it leaves the queue and is
        offered to the child. */
    method OfferNext() returns (msg: Value)
      requires Valid() && ManagerEnabled(sys, TakeNext)
      modifies this
      ensures Valid() && old(queue) == [msg] + queue
      ensures sys == ManagerStep(ManagerStep(old(sys), TakeNext), WriteToChild)
    {
      msg := queue[0];
      queue := queue[1..];
      ManagerTook(TakeNext);
      ManagerTook(WriteToChild);
    }

    /** What follows the write loop of child number `generation`: the reset is queued for the
        router, the cache is cleared, and without a restart the queue closes. */
    method EndChild(generation: nat, restart: bool)
      requires Valid() && ManagerEnabled(sys, Detach(restart)) && generation == sys.child.generation
      modifies this, mux
      ensures Valid() && events == old(events) + [ResetEvent(generation)]
      ensures sys == ManagerStep(ManagerStep(ManagerStep(old(sys), Detach(restart)), SendReset), ClearState)
    {
      ManagerTook(Detach(restart));
      events := events + [ResetEvent(generation)];
      ManagerTook(SendReset);
      mux.ClearCache();
      if !restart { queue, queueOpen := [], false; }
      ManagerTook(ClearState);
    }
  }
}
