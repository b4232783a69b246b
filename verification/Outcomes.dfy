/** What one message of a client, one probe, one late client and one lost child lead to, said of
    what can be seen: the queue, the channels, the table and the buffer. */
module Outcomes {
  import opened Wrappers
  import opened Json
  import opened Shared
  import opened Protocol
  import opened Tasks
  import opened Effects
  import opened Frames
  import Filing
  import Ids
  import Ledger

  /** Client `c` is sent this and nobody anything else; nothing is sent to a client that left. */
  ghost predicate Tells(before: State, after: State, c: nat, d: Delivery) {
    && Sent(after.outbox, c) == Sent(before.outbox, c) + (if c in before.clients then [d] else [])
    && forall e :: e != c ==> Sent(after.outbox, e) == Sent(before.outbox, e)
  }

  /** An error response for this id, for this reason. */
  ghost predicate Complains(msg: Value, id: Value, why: string) {
    && Get(msg, "jsonrpc") == Some(Str("2.0")) && Get(msg, "id") == Some(id) && Get(msg, "result") == None
    && Get(msg, "error") == Some(Obj(map["code" := Int(-32000), "message" := Str(why)]))
  }

  /** Client `c`, and only it, is told that its message, which has this id, was refused. */
  ghost predicate Refuses(before: State, after: State, c: nat, d: Delivery, id: Value, why: string) {
    Tells(before, after, c, d) && (d.Failure? || d.Notice?) && Complains(d.msg, id, why)
  }

  lemma ErrorComplains(id: Value, why: string)
    ensures Complains(ErrorResponse(id, why), id, why)
  {
  }

  // ----- a reader that nothing disturbs

  /** What a reader comes to, it comes to by way of the only step it can take. */
  lemma Forced(s: System, c: nat, a: ClientAction, n: System)
    requires ClientEnabled(s, c, a) && IsOwn(a) && Continues(s, n, c) && Resting(n, c)
    ensures Continues(ClientStep(s, c, a), n, c)
  {
    var actions :| OwnRun(s, c, actions, n);
    OnlyOneNext(s, c, a, a);
    OnlyOneNext(s, c, a, actions[0]);
    assert OwnRun(ClientStep(s, c, a), c, actions[1..], n);
  }

  /** A reader at rest stays where it is. */
  lemma AtRestAlready(s: System, c: nat, n: System)
    requires Resting(s, c) && Continues(s, n, c)
    ensures n == s
  {
    var actions :| OwnRun(s, c, actions, n);
    if actions != [] { OnlyOneNext(s, c, actions[0], actions[0]); }
  }

  /** The reader of `c` has just read a message, and comes to rest without interruption. */
  ghost predicate Handles(s: System, c: nat, msg: Value, tooLarge: bool, n: System) {
    && ClientEnabled(s, c, Receive(msg, tooLarge))
    && Continues(ClientStep(s, c, Receive(msg, tooLarge)), n, c) && Resting(n, c)
  }

  function IdOr(msg: Value, other: Value): Value {
    match Get(msg, "id")
    case Some(id) => id
    case None => other
  }

  /** A message that is too large is refused, whatever it is, and goes no further. */
  lemma LargeMessageIsRefused(s: System, c: nat, msg: Value, n: System)
    requires Handles(s, c, msg, true, n)
    ensures exists d :: Refuses(s.shared, n.shared, c, d, IdOr(msg, Null), "request too large")
    ensures n.queue == s.queue && n.shared == s.shared.(outbox := n.shared.outbox)
  {
    var a := ClientStep(s, c, Receive(msg, true));
    Forced(a, c, RejectTooLarge, n);
    var b := ClientStep(a, c, RejectTooLarge);
    AtRestAlready(b, c, n);
    ErrorComplains(IdOr(msg, Null), "request too large");
    var e := ErrorResponse(IdOr(msg, Null), "request too large");
    var d := if IsRequest(msg, true) then Failure(|s.book.requests|, e) else Notice(e);
    assert Refuses(s.shared, n.shared, c, d, IdOr(msg, Null), "request too large");
  }

  /** The queue has taken one more message, if it is open and has room. */
  predicate TakesIfRoom(before: Queue, after: Queue, item: Item) {
    if before.open && |before.items| < 1024
    then after == Queue(before.items + [item], true, before.enqueued + [item])
    else after == before
  }

  /** A notification goes to the child as it is, or is dropped when the queue is full. */
  lemma NotificationIsForwarded(s: System, c: nat, msg: Value, n: System)
    requires Handles(s, c, msg, false, n) && Get(msg, "id") == None && Method(msg) != "notifications/initialized"
    ensures TakesIfRoom(s.queue, n.queue, Item(FromNotice(c), msg)) && n.shared == s.shared
  {
    var a := ClientStep(s, c, Receive(msg, false));
    Forced(a, c, ForwardNotice, n);
    AtRestAlready(ClientStep(a, c, ForwardNotice), c, n);
  }

  /** A request that comes before the handshake is over waits behind the others. */
  lemma EarlyRequestIsBuffered(s: System, c: nat, msg: Value, n: System)
    requires Handles(s, c, msg, false, n) && Get(msg, "id").Some?
    requires Method(msg) != "initialize" && Method(msg) != "notifications/initialized"
    requires c in s.shared.handshakes && !s.shared.handshakes[c].initialized
    ensures n.queue == s.queue
    ensures var h := s.shared.handshakes[c];
      n.shared == s.shared.(handshakes :=
        s.shared.handshakes[c := h.(buffered := h.buffered + [Request(|s.book.requests|, msg)])])
  {
    var a := ClientStep(s, c, Receive(msg, false));
    Forced(a, c, CheckHandshake, n);
    var b := ClientStep(a, c, CheckHandshake);
    Forced(b, c, BufferRequest, n);
    AtRestAlready(ClientStep(b, c, BufferRequest), c, n);
  }

  /** The request is on file under this id, and with it as its id in the queue; when the queue is
      full it waits at the reader, and when it has closed it goes nowhere. */
  ghost predicate FilesAndSends(s: System, n: System, c: nat, msg: Value, id: string, isInitialize: bool) {
    && id !in s.shared.pending && Get(msg, "id").Some?
    && n.shared.pending ==
         s.shared.pending[id := Pending(c, Get(msg, "id").value, isInitialize, s.now, |s.book.requests|)]
    && n.shared.outbox == s.shared.outbox
    && if !s.queue.open then n.queue == s.queue
       else if |s.queue.items| < 1024 then
         exists body :: OnlyIdDiffers(msg, body, Str(id)) &&
           TakesIfRoom(s.queue, n.queue, Item(FromRequest(|s.book.requests|), body))
       else n.queue == s.queue && c in n.readers && n.readers[c] == Sending(Request(|s.book.requests|, msg), id, [])
  }

  /** The queue as the sending reader leaves it. */
  lemma SendingEnds(s: System, c: nat, req: Request, id: string, n: System)
    requires c in s.readers && s.readers[c] == Sending(req, id, []) && req.body.Obj?
    requires Continues(s, n, c) && Resting(n, c)
    ensures n.shared == s.shared
    ensures if s.queue.open && |s.queue.items| < 1024 then
              exists body :: OnlyIdDiffers(req.body, body, Str(id)) &&
                TakesIfRoom(s.queue, n.queue, Item(FromRequest(req.ticket), body))
            else n.queue == s.queue && (s.queue.open ==> n == s)
  {
    if HasRoom(s.queue) {
      Forced(s, c, Enqueue, n);
      var a := ClientStep(s, c, Enqueue);
      Forced(a, c, FlushDone, n);
      AtRestAlready(ClientStep(a, c, FlushDone), c, n);
      SetIdReplacesOnlyId(req.body, Str(id));
      assert OnlyIdDiffers(req.body, SetId(req.body, Str(id)), Str(id));
    } else if !s.queue.open {
      Forced(s, c, EnqueueClosed, n);
      var a := ClientStep(s, c, EnqueueClosed);
      Forced(a, c, FlushDone, n);
      AtRestAlready(ClientStep(a, c, FlushDone), c, n);
    } else {
      AtRestAlready(s, c, n);
    }
  }

  lemma NextIdIsFree(s: System, c: nat)
    requires Ledger.LedgerInv(s)
    ensures Ids.GlobalId(c, s.shared.nextGlobal) !in s.shared.pending
  {
    Ids.NextIdIsFresh(c, s.shared.nextGlobal);
  }

  /** The request has been filed or refused, and sending it, if it was filed, is still to come. */
  ghost predicate InHand(s: System, e: System, c: nat, msg: Value, isInitialize: bool) {
    var req, id := Request(|s.book.requests|, msg), Ids.GlobalId(c, s.shared.nextGlobal);
    && e.queue == s.queue && c in e.readers && Get(msg, "id").Some?
    && if |s.shared.pending| < 2048 then
         && e.readers[c] == Sending(req, id, [])
         && e.shared.pending ==
              s.shared.pending[id := Pending(c, Get(msg, "id").value, isInitialize, s.now, req.ticket)]
         && e.shared.outbox == s.shared.outbox
       else
         && (e.readers[c] == Flushing([]) || e.readers[c].Idle?)
         && e.shared.pending == s.shared.pending
         && exists d :: Refuses(s.shared, e.shared, c, d, Get(msg, "id").value, "mux overloaded (too many pending)")
  }

  lemma InHandEnds(s: System, e: System, c: nat, msg: Value, isInitialize: bool, n: System)
    requires Ledger.LedgerInv(s) && InHand(s, e, c, msg, isInitialize) && Continues(e, n, c) && Resting(n, c)
    ensures n.shared == e.shared
    ensures if |s.shared.pending| < 2048 then
              FilesAndSends(s, n, c, msg, Ids.GlobalId(c, s.shared.nextGlobal), isInitialize)
            else n.queue == s.queue
  {
    NextIdIsFree(s, c);
    hide Ledger.LedgerInv, Ids.GlobalId, OnlyIdDiffers, Refuses;
    if |s.shared.pending| < 2048 {
      SendingEnds(e, c, e.readers[c].req, e.readers[c].id, n);
    } else if e.readers[c].Idle? {
      AtRestAlready(e, c, n);
    } else {
      Forced(e, c, FlushDone, n);
      AtRestAlready(ClientStep(e, c, FlushDone), c, n);
    }
  }

  lemma ForwardsNext(s: System, c: nat, msg: Value, b: System)
    requires c in b.readers && b.readers[c] == Flushing([Request(|s.book.requests|, msg)])
    requires b.shared == s.shared && b.queue == s.queue && b.now == s.now && Get(msg, "id").Some?
    ensures InHand(s, ClientStep(b, c, ForwardNext), c, msg, false)
    ensures |s.shared.pending| >= 2048 ==>
              ClientStep(b, c, ForwardNext).shared == s.shared.(outbox := ClientStep(b, c, ForwardNext).shared.outbox)
  {
    hide Ids.GlobalId, Complains;
    ErrorComplains(Get(msg, "id").value, OVERLOADED);
    var req, e := Request(|s.book.requests|, msg), ClientStep(b, c, ForwardNext);
    assert [req][1..] == [];
    if |s.shared.pending| >= 2048 {
      var d := Failure(req.ticket, ErrorResponse(LocalId(msg), OVERLOADED));
      assert Refuses(s.shared, e.shared, c, d, Get(msg, "id").value, "mux overloaded (too many pending)");
    }
  }

  /** A request after the handshake is filed and sent, or refused when 2048 are outstanding. */
  lemma RequestIsForwarded(s: System, c: nat, msg: Value, n: System)
    requires Ledger.LedgerInv(s) && Handles(s, c, msg, false, n) && Get(msg, "id").Some?
    requires Method(msg) != "initialize" && Method(msg) != "notifications/initialized"
    requires c in s.shared.handshakes ==> s.shared.handshakes[c].initialized
    ensures if |s.shared.pending| < 2048 then
              FilesAndSends(s, n, c, msg, Ids.GlobalId(c, s.shared.nextGlobal), false)
            else
              && n.queue == s.queue && n.shared == s.shared.(outbox := n.shared.outbox)
              && exists d ::
                 Refuses(s.shared, n.shared, c, d, Get(msg, "id").value, "mux overloaded (too many pending)")
  {
    hide Ledger.LedgerInv, Ids.GlobalId, Refuses, FilesAndSends;
    var a := ClientStep(s, c, Receive(msg, false));
    Forced(a, c, CheckHandshake, n);
    var b := ClientStep(a, c, CheckHandshake);
    Forced(b, c, ForwardNext, n);
    ForwardsNext(s, c, msg, b);
    hide ClientStep;
    InHandEnds(s, ClientStep(b, c, ForwardNext), c, msg, false, n);
  }

  /** An initialize is answered from the cache, waits for the answer to another one, or is filed
      and sent or refused like any request. In every case the client is marked as having asked. */
  lemma InitializeIsHandled(s: System, c: nat, msg: Value, n: System)
    requires Ledger.LedgerInv(s) && Handles(s, c, msg, false, n) && Get(msg, "id").Some?
    requires Method(msg) == "initialize"
    ensures c in n.shared.handshakes ==> n.shared.handshakes[c].initializePending
    ensures var id, t := Get(msg, "id").value, |s.book.requests|;
      if s.shared.cached.Some? then
        && n.queue == s.queue && n.shared.pending == s.shared.pending
        && (s.shared.cached.value.Obj? ==>
              exists m :: OnlyIdDiffers(s.shared.cached.value, m, id) && Tells(s.shared, n.shared, c, Reply(t, m)))
      else if s.shared.initializing then
        && n.queue == s.queue && n.shared.pending == s.shared.pending && n.shared.outbox == s.shared.outbox
        && n.shared.waiting == s.shared.waiting + [Owed(c, id, t)]
      else if |s.shared.pending| < 2048 then FilesAndSends(s, n, c, msg, Ids.GlobalId(c, s.shared.nextGlobal), true)
      else
        && n.queue == s.queue && n.shared.pending == s.shared.pending
        && exists d :: Refuses(s.shared, n.shared, c, d, id, "mux overloaded (too many pending)")
  {
    hide Ledger.LedgerInv, Ids.GlobalId, Refuses, FilesAndSends, OnlyIdDiffers;
    var a := ClientStep(s, c, Receive(msg, false));
    Forced(a, c, InitializeRequest, n);
    var e := ClientStep(a, c, InitializeRequest);
    InitializeIsMarked(s, c, msg, a);
    hide ClientStep;
    if s.shared.cached.None? && !s.shared.initializing {
      InitializeIsFiled(s, c, msg, a);
      InHandEnds(s, e, c, msg, true, n);
    } else {
      InitializeIsServed(s, c, msg, a);
      AtRestAlready(e, c, n);
      if s.shared.cached.Some? && s.shared.cached.value.Obj? {
        SetIdReplacesOnlyId(s.shared.cached.value, LocalId(msg));
      }
    }
  }

  /** The reader has just been handed an initialize. */
  ghost predicate AsksFor(s: System, c: nat, msg: Value, a: System) {
    && c in s.readers && Get(msg, "id").Some? && Method(msg) == "initialize"
    && a.shared == s.shared && a.queue == s.queue && a.now == s.now
    && a.readers == s.readers[c := Asked(Request(|s.book.requests|, msg), false)]
  }

  lemma InitializeIsFiled(s: System, c: nat, msg: Value, a: System)
    requires AsksFor(s, c, msg, a) && s.shared.cached.None? && !s.shared.initializing
    ensures InHand(s, ClientStep(a, c, InitializeRequest), c, msg, true)
  {
    hide Ids.GlobalId, Complains, SetId, MarkInitializePending;
    MarkingMarks(s.shared, c);
    ErrorComplains(Get(msg, "id").value, OVERLOADED);
    var e, req := ClientStep(a, c, InitializeRequest), Request(|s.book.requests|, msg);
    if |s.shared.pending| >= 2048 {
      var d := Failure(req.ticket, ErrorResponse(LocalId(msg), OVERLOADED));
      hide ErrorResponse;
      assert Refuses(s.shared, e.shared, c, d, Get(msg, "id").value, "mux overloaded (too many pending)");
    }
  }

  lemma MarkingMarks(st: State, c: nat)
    ensures var n := MarkInitializePending(st, c);
      && n == st.(handshakes := n.handshakes)
      && (c in n.handshakes ==> n.handshakes[c].initializePending)
  {
  }

  lemma InitializeIsServed(s: System, c: nat, msg: Value, a: System)
    requires AsksFor(s, c, msg, a) && (s.shared.cached.Some? || s.shared.initializing)
    ensures var e := ClientStep(a, c, InitializeRequest);
      && c in e.readers && e.readers[c].Idle? && e.shared.pending == s.shared.pending
      && if s.shared.cached.Some? then
           Tells(s.shared, e.shared, c, Reply(|s.book.requests|, SetId(s.shared.cached.value, LocalId(msg))))
         else
           && e.shared.outbox == s.shared.outbox
           && e.shared.waiting == s.shared.waiting + [Owed(c, Get(msg, "id").value, |s.book.requests|)]
  {
    hide Ids.GlobalId, SetId, MarkInitializePending;
    MarkingMarks(s.shared, c);
  }

  lemma InitializeIsMarked(s: System, c: nat, msg: Value, a: System)
    requires AsksFor(s, c, msg, a)
    ensures var e := ClientStep(a, c, InitializeRequest);
      && e.queue == s.queue
      && (c in e.shared.handshakes ==> e.shared.handshakes[c].initializePending)
  {
    hide Ids.GlobalId, SetId, ErrorResponse, MarkInitializePending;
    MarkingMarks(s.shared, c);
  }

  // ----- the end of the handshake

  /** What the first three steps of the notification have settled stays settled. */
  ghost predicate Settled(s: System, n: System, c: nat, announced: seq<Item>) {
    && announced <= n.queue.enqueued && n.shared.serverInitialized
    && (c in n.shared.handshakes ==> n.shared.handshakes[c].initialized && n.shared.handshakes[c].buffered == [])
    && forall i :: |announced| <= i < |n.queue.enqueued| ==> n.queue.enqueued[i].origin.FromRequest?
  }

  lemma FlushingStaysSettled(s: System, n: System, c: nat, a: ClientAction, announced: seq<Item>)
    requires Settled(s, n, c, announced) && ClientEnabled(n, c, a)
    requires n.readers[c].Flushing? || n.readers[c].Sending?
    requires IsOwn(a)
    ensures var m := ClientStep(n, c, a);
      && Settled(s, m, c, announced) && c in m.readers
      && (m.readers[c].Flushing? || m.readers[c].Sending? || m.readers[c].Idle?)
  {
    hide Ids.GlobalId, SetId, ErrorResponse;
  }

  lemma {:induction false} RestIsSettled(
    s: System, b: System, c: nat, actions: seq<ClientAction>, n: System, announced: seq<Item>)
    requires Settled(s, b, c, announced) && OwnRun(b, c, actions, n) && Resting(n, c)
    requires c in b.readers && (b.readers[c].Flushing? || b.readers[c].Sending? || b.readers[c].Idle?)
    ensures Settled(s, n, c, announced)
    decreases |actions|
  {
    hide Settled;
    if actions != [] {
      if b.readers[c].Idle? { OnlyOneNext(b, c, actions[0], actions[0]); }
      FlushingStaysSettled(s, b, c, actions[0], announced);
      RestIsSettled(s, ClientStep(b, c, actions[0]), c, actions[1..], n, announced);
    }
  }

  /** The announcement has been made, or need not be, and the handshake is about to end. */
  ghost predicate AboutToFinish(e: System, c: nat, announced: seq<Item>) {
    && c in e.readers && e.readers[c] == Completing
    && e.queue.enqueued == announced && e.shared.serverInitialized
  }

  lemma FinishSettles(s: System, e: System, c: nat, announced: seq<Item>)
    requires AboutToFinish(e, c, announced)
    ensures var f := ClientStep(e, c, FinishHandshake);
      Settled(s, f, c, announced) && c in f.readers && f.readers[c].Flushing?
  {
  }

  lemma AnnouncesFirst(s: System, c: nat, msg: Value, n: System) returns (e: System)
    requires Handles(s, c, msg, false, n) && Method(msg) == "notifications/initialized"
    ensures var announces := !s.shared.serverInitialized && s.queue.open && |s.queue.items| < 1024;
      AboutToFinish(e, c, s.queue.enqueued + if announces then [Item(FromHandshake(c), msg)] else [])
    ensures Continues(e, n, c)
  {
    var a := ClientStep(s, c, Receive(msg, false));
    assert a.readers[c] == Noted(msg, false);
    Forced(a, c, ClaimInitialized, n);
    e := ClientStep(a, c, ClaimInitialized);
    if !s.shared.serverInitialized {
      Forced(e, c, Announce, n);
      e := ClientStep(e, c, Announce);
    }
  }

  /** The notification that ends a handshake: the first one of all is announced to the child, if
      the queue has room, and no other is. Either way this client's handshake is over and its
      buffer empty, and nothing but requests follows. */
  lemma InitializedIsHandled(s: System, c: nat, msg: Value, n: System)
    requires Handles(s, c, msg, false, n) && Method(msg) == "notifications/initialized"
    ensures var announces := !s.shared.serverInitialized && s.queue.open && |s.queue.items| < 1024;
      Settled(s, n, c, s.queue.enqueued + if announces then [Item(FromHandshake(c), msg)] else [])
  {
    var announces := !s.shared.serverInitialized && s.queue.open && |s.queue.items| < 1024;
    var announced := s.queue.enqueued + if announces then [Item(FromHandshake(c), msg)] else [];
    var e := AnnouncesFirst(s, c, msg, n);
    hide ClientStep, Settled;
    Forced(e, c, FinishHandshake, n);
    FinishSettles(s, e, c, announced);
    var f := ClientStep(e, c, FinishHandshake);
    var actions :| OwnRun(f, c, actions, n);
    RestIsSettled(s, f, c, actions, n, announced);
  }

  // ----- late clients, probes and lost children

  /** A client that is late with its handshake is told so, and is gone after that. */
  lemma LateClientIsToldAndGone(s: System, c: nat)
    requires ClientEnabled(s, c, NoticeTimeout)
    ensures var a := ClientStep(s, c, NoticeTimeout);
      && ClientEnabled(a, c, ReportTimeout)
      && var b := ClientStep(a, c, ReportTimeout);
         && (exists d :: Refuses(s.shared, b.shared, c, d, Null,
                                 "handshake timeout: initialize/initialized sequence not completed"))
         && ClientEnabled(b, c, LeaveClient)
         && var n := ClientStep(b, c, LeaveClient);
            && n.readers[c].Left? && c !in n.shared.clients && c !in n.shared.handshakes
            && n.shared.outbox == b.shared.outbox && n.queue == s.queue
  {
    var why := "handshake timeout: initialize/initialized sequence not completed";
    var b := ClientStep(ClientStep(s, c, NoticeTimeout), c, ReportTimeout);
    ErrorComplains(Null, why);
    assert Refuses(s.shared, b.shared, c, Notice(ErrorResponse(Null, why)), Null, why);
  }

  /** A heartbeat probe is a ping under the next heartbeat id, and all that it changes is the queue. */
  lemma ProbeIsAPing(s: System)
    requires Enabled(s, Probe)
    ensures var n := Apply(s, Probe);
      && n == s.(queue := n.queue, nextProbe := s.nextProbe + 1)
      && exists m :: TakesIfRoom(s.queue, n.queue, Item(FromProbe, m)) && n.queue != s.queue &&
           Get(m, "id") == Some(Str(Ids.HeartbeatId(s.nextProbe))) && Method(m) == "ping" &&
           Get(m, "jsonrpc") == Some(Str("2.0"))
  {
    var m := ProbeMessage(s.nextProbe);
    assert TakesIfRoom(s.queue, Apply(s, Probe).queue, Item(FromProbe, m));
    assert |s.queue.items + [Item(FromProbe, m)]| == |s.queue.items| + 1;
  }

  /** No probe is queued before a client has ended its handshake. */
  ghost predicate NoEarlyProbe(s: System) {
    s.shared.serverInitialized || forall i :: 0 <= i < |s.queue.enqueued| ==> !s.queue.enqueued[i].origin.FromProbe?
  }

  lemma ClientKeepsNoEarlyProbe(s: System, c: nat, a: ClientAction)
    requires NoEarlyProbe(s) && ClientEnabled(s, c, a)
    ensures NoEarlyProbe(ClientStep(s, c, a))
  {
    hide ClientStep, ClientEnabled, Changed;
    Filing.ClientStepEnqueues(s, c, a);
    ClientStepShared(s, c, a);
    ChangedKeepsFlag(s.shared, c, s.now, ChangeBy(s.readers[c], a));
  }

  lemma ChangedKeepsFlag(st: State, c: nat, now: nat, change: Change)
    ensures st.serverInitialized ==> Changed(st, c, now, change).serverInitialized
  {
    hide ErrorResponse, SetId, LocalId, Sent, Ids.GlobalId;
  }

  lemma StepKeepsNoEarlyProbe(s: System, l: Label)
    requires NoEarlyProbe(s) && Enabled(s, l)
    ensures NoEarlyProbe(Apply(s, l))
  {
    match l
    case ByClient(c, a) => ClientKeepsNoEarlyProbe(s, c, a);
    case ByManager(a) => ManagerStepFrame(s, a);
    case ByRouter(a) => RouterStepFrame(s, a);
    case ByReaper(a) => ReaperStepFrame(s, a);
    case _ =>
  }

  lemma {:induction false} RunKeepsNoEarlyProbe(s: System, labels: seq<Label>)
    requires NoEarlyProbe(s) && IsRun(s, labels)
    ensures NoEarlyProbe(Final(s, labels))
    decreases |labels|
  {
    hide Enabled, Apply, NoEarlyProbe;
    if labels != [] {
      StepKeepsNoEarlyProbe(s, labels[0]);
      RunKeepsNoEarlyProbe(Apply(s, labels[0]), labels[1..]);
    }
  }

  /** In every run a probe in the queue means that some client has been through its handshake. */
  lemma ProbesFollowTheFirstHandshake(s: System, labels: seq<Label>, i: nat)
    requires Initial(s) && IsRun(s, labels)
    requires i < |Final(s, labels).queue.enqueued| && Final(s, labels).queue.enqueued[i].origin.FromProbe?
    ensures Final(s, labels).shared.serverInitialized
  {
    hide Enabled, Apply, IsRun, Final;
    RunKeepsNoEarlyProbe(s, labels);
  }

  /** Once a child is cleared away, its response to an initialize is no longer served. */
  lemma LostChildLeavesNoCache(s: System)
    requires ManagerEnabled(s, ClearState)
    ensures var n := ManagerStep(s, ClearState);
      && n.shared == s.shared.(cached := None, initializing := false)
      && (n.child.manager.Stopped? ==> !n.queue.open && n.queue.items == [])
  {
  }

  /** A failure of one of these requests of the client, for this reason. */
  ghost predicate IsFailureOf(d: Delivery, owed: seq<Owed>, why: string, c: nat) {
    d.Failure? && exists o :: o in owed && IsOf(d, o, why, c)
  }

  ghost predicate IsOf(d: Delivery, o: Owed, why: string, c: nat)
    requires d.Failure?
  {
    o.client == c && d.ticket == o.ticket && Complains(d.msg, o.localId, why)
  }

  lemma {:induction false} EveryFailureSays(owed: seq<Owed>, why: string, c: nat)
    ensures forall d :: d in Ledger.For(Failures(owed, why), c) ==> IsFailureOf(d, owed, why, c)
  {
    if owed != [] {
      var init, last := owed[..|owed| - 1], owed[|owed| - 1];
      assert Failures(owed, why)[..|owed| - 1] == Failures(init, why);
      EveryFailureSays(init, why, c);
      ErrorComplains(last.localId, why);
      hide Complains, ErrorResponse;
      forall d | d in Ledger.For(Failures(owed, why), c) ensures IsFailureOf(d, owed, why, c) {
        if d in Ledger.For(Failures(init, why), c) {
          var o :| o in init && IsOf(d, o, why, c);
          assert o in owed;
        } else {
          assert IsOf(d, last, why, c);
        }
      }
    }
  }

  /** All that a client is sent in between are failures of these requests of its own, for this
      reason. */
  ghost predicate Fails(before: State, after: State, c: nat, owed: seq<Owed>, why: string) {
    var told, more := Sent(before.outbox, c), Sent(after.outbox, c);
    told <= more && forall d :: d in more[|told|..] ==> IsFailureOf(d, owed, why, c)
  }

  lemma BatchFails(st: State, owed: seq<Owed>, why: string, c: nat)
    requires st.clients <= st.outbox.Keys
    ensures Fails(st, PushAll(st, Failures(owed, why)), c, owed, why)
  {
    Ledger.PushAllDelivers(st, Failures(owed, why), c);
    EveryFailureSays(owed, why, c);
    var more := if c in st.clients then Ledger.For(Failures(owed, why), c) else [];
    assert (Sent(st.outbox, c) + more)[|Sent(st.outbox, c)|..] == more;
  }

  /** What the reaper reports is a timeout. */
  lemma ReapedAreToldOfTheTimeout(s: System, c: nat)
    requires s.shared.clients <= s.shared.outbox.Keys
    ensures Fails(s.shared, ReportReapedStep(s).shared, c, s.reaping.hand, "request timeout")
  {
    BatchFails(s.shared, s.reaping.hand, TIMED_OUT, c);
  }

  /** What a reset reports, of everything on file and of everybody who waits, is the restart. */
  lemma ResetTellsOfTheRestart(s: System, order: seq<string>, c: nat)
    requires RouterEnabled(s, HandleReset(order)) && s.shared.clients <= s.shared.outbox.Keys
    ensures Fails(s.shared, HandleResetStep(s, order).shared, c, OwedList(s.shared.pending, order) + s.shared.waiting,
                  "MCP server restarted")
  {
    hide Complains;
    var owed, waiting := OwedList(s.shared.pending, order), s.shared.waiting;
    var drained := s.shared.(pending := map[], waiting := [], cached := None, initializing := false);
    var half := PushAll(drained, Failures(owed, RESTARTED));
    Ledger.PushAllDelivers(drained, Failures(owed, RESTARTED), c);
    BatchFails(drained, owed, RESTARTED, c);
    BatchFails(half, waiting, RESTARTED, c);
    FailsTwice(drained, half, PushAll(half, Failures(waiting, RESTARTED)), c, owed, waiting, RESTARTED);
  }

  lemma FailsTwice(a: State, b: State, d: State, c: nat, xs: seq<Owed>, ys: seq<Owed>, why: string)
    requires Fails(a, b, c, xs, why) && Fails(b, d, c, ys, why)
    ensures Fails(a, d, c, xs + ys, why)
  {
    hide Complains;
    var p, q, r := Sent(a.outbox, c), Sent(b.outbox, c), Sent(d.outbox, c);
    assert r[|p|..] == q[|p|..] + r[|q|..];
    forall x | x in r[|p|..] ensures IsFailureOf(x, xs + ys, why, c) {
      var owed := if x in q[|p|..] then xs else ys;
      var o :| o in owed && IsOf(x, o, why, c);
      assert o in xs + ys;
    }
  }
}
