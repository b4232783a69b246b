/** The object behind the daemon's lock. Each method is one lock region (or the part of one
    that a method of the object performs), and is proved to have the effect that the value
    model gives it. */
module LockedState {
  import opened Wrappers
  import opened Json
  import opened Shared
  import Ids

  // ----- lists of deliveries grow at the end

  lemma {:induction false} PushAllSnoc(st: State, items: seq<(nat, Delivery)>, last: (nat, Delivery))
    ensures PushAll(st, items + [last]) == Push(PushAll(st, items), last.0, last.1)
    decreases |items|
  {
    if items == [] {
      assert [] + [last] == [last] && [last][1..] == [];
    } else {
      PushAllSnoc(Push(st, items[0].0, items[0].1), items[1..], last);
      assert (items + [last])[1..] == items[1..] + [last];
    }
  }

  lemma FailuresSnoc(owed: seq<Owed>, o: Owed, reason: string)
    ensures Failures(owed + [o], reason) == Failures(owed, reason) + [FailureFor(o, reason)]
  {
  }

  lemma RepliesSnoc(owed: seq<Owed>, o: Owed, msg: Value)
    ensures Replies(owed + [o], msg) == Replies(owed, msg) + [ReplyFor(o, msg)]
  {
  }

  lemma OwedListSnoc(pending: map<string, Pending>, order: seq<string>, g: string)
    requires g in pending && forall i :: 0 <= i < |order| ==> order[i] in pending
    ensures OwedList(pending, order + [g]) == OwedList(pending, order) + [OwedFor(pending[g])]
  {
  }

  /** `order` lists exactly what has been visited so far. */
  ghost predicate Visited(order: seq<string>, keys: set<string>, todo: set<string>) {
    todo <= keys && Enumerates(order, keys - todo)
  }

  lemma VisitNext(order: seq<string>, keys: set<string>, todo: set<string>, g: string)
    requires Visited(order, keys, todo) && g in todo
    ensures Visited(order + [g], keys, todo - {g})
  {
    forall k | k in keys - (todo - {g}) ensures k in order + [g] {
      if k != g { assert k in order; }
    }
  }

  lemma HeardByNobody(outbox: map<nat, seq<Delivery>>, msg: Value)
    ensures Heard(outbox, {}, msg) == outbox
  {
  }

  lemma HeardByOneMore(
    outbox: map<nat, seq<Delivery>>, done: set<nat>, c: nat, msg: Value, now: map<nat, seq<Delivery>>)
    requires c !in done && now == Heard(outbox, done, msg)
    ensures Heard(outbox, done + {c}, msg) == now[c := Sent(now, c) + [Broadcast(msg)]]
  {
  }

  class MuxState {
    var nextClientId: nat
    var nextGlobalId: nat
    var clients: set<nat>
    var channels: map<nat, seq<Delivery>>
    var pending: map<string, Pending>
    var cachedInitialize: Option<Value>
    var initWaiting: seq<Owed>
    var initializing: bool
    var clientHandshakes: map<nat, Handshake>
    var serverInitialized: bool

    function View(): State
      reads this
    {
      State(nextClientId, nextGlobalId, clients, channels, pending, cachedInitialize, initWaiting, initializing,
            clientHandshakes, serverInitialized)
    }

    constructor ()
      ensures View() == State(1, 1, {}, map[], map[], None, [], false, map[], false)
    {
      nextClientId, nextGlobalId := 1, 1;
      clients, channels, pending := {}, map[], map[];
      cachedInitialize, initWaiting, initializing := None, [], false;
      clientHandshakes, serverInitialized := map[], false;
    }

    /** The look-up and send that every answer goes through. */
    method Send(client: nat, d: Delivery)
      modifies this`channels
      ensures View() == Push(old(View()), client, d)
    {
      if client in clients {
        channels := channels[client := Sent(channels, client) + [d]];
      }
    }

    // ----- state.rs

    method RegisterClient(now: nat) returns (id: nat)
      modifies this
      ensures id == old(nextClientId) && View() == Register(old(View()), now)
    {
      id := nextClientId;
      nextClientId := nextClientId + 1;
      clients := clients + {id};
      channels := channels[id := []];
      clientHandshakes := clientHandshakes[id := Handshake(now, false, false, [])];
    }

    method RetainPending(client: nat)
      modifies this`pending
      ensures pending == PendingExcept(old(pending), client)
    {
      var todo := pending.Keys;
      while todo != {}
        invariant todo <= old(pending).Keys
        invariant pending == map g | g in old(pending) && (g in todo || old(pending)[g].client != client) ::
                  old(pending)[g]
        decreases |todo|
      {
        var g :| g in todo;
        todo := todo - {g};
        if pending[g].client == client { pending := pending - {g}; }
      }
    }

    method UnregisterClient(client: nat)
      modifies this
      ensures View() == Unregister(old(View()), client)
    {
      clients := clients - {client};
      clientHandshakes := clientHandshakes - {client};
      RetainPending(client);
      var kept, i := [], 0;
      while i < |initWaiting|
        invariant 0 <= i <= |initWaiting|
        invariant kept == WaitersExcept(initWaiting[..i], client)
      {
        assert initWaiting[..i + 1][..i] == initWaiting[..i];
        if initWaiting[i].client != client { kept := kept + [initWaiting[i]]; }
        i := i + 1;
      }
      assert initWaiting[..i] == initWaiting;
      initWaiting := kept;
    }

    method NextRequestId() returns (id: nat)
      modifies this`nextGlobalId
      ensures id == old(nextGlobalId) && nextGlobalId == old(nextGlobalId) + 1
    {
      id := nextGlobalId;
      nextGlobalId := nextGlobalId + 1;
    }

    method CompleteHandshake(client: nat) returns (buffered: seq<Request>)
      modifies this`clientHandshakes
      ensures buffered == BufferedFor(old(clientHandshakes), client)
      ensures View() == Shared.CompleteHandshake(old(View()), client)
    {
      if client in clientHandshakes {
        var h := clientHandshakes[client];
        buffered := h.buffered;
        clientHandshakes := clientHandshakes[client := h.(initialized := true, buffered := [])];
      } else {
        buffered := [];
      }
    }

    method IsHandshakeComplete(client: nat) returns (complete: bool)
      ensures complete == HandshakeComplete(View(), client)
    {
      if client in clientHandshakes { return clientHandshakes[client].initialized; }
      return true;
    }

    method IsHandshakeTimedOut(client: nat, now: nat) returns (late: bool)
      ensures late == HandshakeTimedOut(View(), client, now)
    {
      if client !in clientHandshakes { return false; }
      var h := clientHandshakes[client];
      return !h.initialized && now - h.connectedAt > HANDSHAKE_TIMEOUT;
    }

    method BufferMessage(client: nat, req: Request)
      modifies this`clientHandshakes
      ensures View() == Shared.BufferMessage(old(View()), client, req)
    {
      if client in clientHandshakes {
        var h := clientHandshakes[client];
        clientHandshakes := clientHandshakes[client := h.(buffered := h.buffered + [req])];
      }
    }

    /** Fails everything in a list, in order. */
    method FailAll(owed: seq<Owed>, reason: string)
      modifies this`channels
      ensures View() == PushAll(old(View()), Failures(owed, reason))
    {
      var i := 0;
      while i < |owed|
        invariant 0 <= i <= |owed|
        invariant View() == PushAll(old(View()), Failures(owed[..i], reason))
      {
        FailuresSnoc(owed[..i], owed[i], reason);
        PushAllSnoc(old(View()), Failures(owed[..i], reason), FailureFor(owed[i], reason));
        assert owed[..i + 1] == owed[..i] + [owed[i]];
        Send(owed[i].client, Failure(owed[i].ticket, ErrorResponse(owed[i].localId, reason)));
        i := i + 1;
      }
      assert owed[..i] == owed;
    }

    /** Fails every entry of a table that has been taken out, in hash order. */
    method FailTaken(taken: map<string, Pending>, reason: string) returns (ghost order: seq<string>)
      modifies this`channels
      ensures Enumerates(order, taken.Keys)
      ensures View() == PushAll(old(View()), Failures(OwedList(taken, order), reason))
    {
      order := [];
      var todo := taken.Keys;
      while todo != {}
        invariant Visited(order, taken.Keys, todo)
        invariant View() == PushAll(old(View()), Failures(OwedList(taken, order), reason))
        decreases |todo|
      {
        var g :| g in todo;
        var p := taken[g];
        OwedListSnoc(taken, order, g);
        FailuresSnoc(OwedList(taken, order), OwedFor(p), reason);
        PushAllSnoc(old(View()), Failures(OwedList(taken, order), reason), FailureFor(OwedFor(p), reason));
        VisitNext(order, taken.Keys, todo, g);
        Send(p.client, Failure(p.ticket, ErrorResponse(p.localId, reason)));
        todo, order := todo - {g}, order + [g];
      }
    }

    method ResetState(reason: string) returns (ghost order: seq<string>)
      modifies this
      ensures Enumerates(order, old(pending).Keys)
      ensures View() == Reset(old(View()), order, reason)
    {
      var taken, waiters := pending, initWaiting;
      pending, initWaiting := map[], [];
      cachedInitialize := None;
      initializing := false;
      order := FailTaken(taken, reason);
      FailAll(waiters, reason);
    }

    // ----- client.rs

    /** Whether this client is the one that announces `initialized` to the child. */
    method ClaimInitialized() returns (announce: bool)
      modifies this`serverInitialized
      ensures announce == !old(serverInitialized) && View() == old(View()).(serverInitialized := true)
    {
      announce := !serverInitialized;
      serverInitialized := true;
    }

    /** Files a request and hands back its global id, or answers it and hands back nothing. */
    method FileOrReject(client: nat, req: Request, isInitialize: bool, now: nat) returns (id: Option<string>)
      modifies this
      ensures var before := old(View());
        if Overloaded(before) then id == None && View() == RejectOverload(before, client, req)
        else (
          && id == Some(Ids.GlobalId(client, before.nextGlobal))
          && View() == File(before, client, req, isInitialize, now))
    {
      var localId := LocalId(req.body);
      if |pending| >= MAX_PENDING {
        Send(client, Failure(req.ticket, ErrorResponse(localId, OVERLOADED)));
        return None;
      }
      var n := NextRequestId();
      var g := Ids.GlobalId(client, n);
      pending := pending[g := Pending(client, localId, isInitialize, now, req.ticket)];
      return Some(g);
    }

    /** The initialize region: from the cache, on the waiting list, refused, or filed. */
    method InitializeRequest(client: nat, req: Request, now: nat) returns (id: Option<string>)
      modifies this
      ensures View() == Initialize(old(View()), client, req, now)
      ensures id == if InitializeForwards(old(View())) then Some(Ids.GlobalId(client, old(nextGlobalId))) else None
    {
      if client in clientHandshakes {
        clientHandshakes := clientHandshakes[client := clientHandshakes[client].(initializePending := true)];
      }
      if cachedInitialize.Some? {
        Send(client, Reply(req.ticket, SetId(cachedInitialize.value, LocalId(req.body))));
        return None;
      }
      if initializing {
        initWaiting := initWaiting + [Owed(client, LocalId(req.body), req.ticket)];
        return None;
      }
      id := FileOrReject(client, req, true, now);
    }

    // ----- server.rs

    method BroadcastAll(msg: Value)
      modifies this`channels
      ensures View() == Shared.BroadcastAll(old(View()), msg)
    {
      var todo := clients;
      ghost var before, done := channels, {};
      HeardByNobody(before, msg);
      while todo != {}
        invariant done !! todo && done + todo == clients
        invariant channels == Heard(before, done, msg)
        decreases |todo|
      {
        var c :| c in todo;
        HeardByOneMore(before, done, c, msg, channels);
        todo, done := todo - {c}, done + {c};
        channels := channels[c := Sent(channels, c) + [Broadcast(msg)]];
      }
    }

    method RemovePending(id: string) returns (entry: Option<Pending>)
      modifies this`pending
      ensures View() == TakePending(old(View()), id)
      ensures entry == if id in old(pending) then Some(old(pending)[id]) else None
    {
      entry := if id in pending then Some(pending[id]) else None;
      pending := pending - {id};
    }

    method CacheInitialize(msg: Value)
      modifies this
      ensures View() == CacheReply(old(View()), msg)
    {
      cachedInitialize := Some(msg);
      initializing := false;
      var waiters := initWaiting;
      initWaiting := [];
      ghost var start := View();
      var i := 0;
      while i < |waiters|
        invariant 0 <= i <= |waiters|
        invariant View() == PushAll(start, Replies(waiters[..i], msg))
      {
        RepliesSnoc(waiters[..i], waiters[i], msg);
        PushAllSnoc(start, Replies(waiters[..i], msg), ReplyFor(waiters[i], msg));
        assert waiters[..i + 1] == waiters[..i] + [waiters[i]];
        Send(waiters[i].client, Reply(waiters[i].ticket, SetId(msg, waiters[i].localId)));
        i := i + 1;
      }
      assert waiters[..i] == waiters;
    }

    /** A send on a sender cloned earlier reaches the channel whether or not it is still listed. */
    method SendOnClone(entry: Pending, msg: Value)
      modifies this`channels
      ensures View() == SendReply(old(View()), entry, msg)
    {
      channels :=
        channels[entry.client := Sent(channels, entry.client) + [Reply(entry.ticket, SetId(msg, entry.localId))]];
    }

    method ClearCache()
      modifies this`cachedInitialize, this`initializing
      ensures View() == Shared.ClearCache(old(View()))
    {
      cachedInitialize, initializing := None, false;
    }

    // ----- mod.rs

    /** The reaper's retain, which collects what it drops. */
    method TakeExpired(now: nat, timeout: nat) returns (expired: seq<Owed>, ghost order: seq<string>)
      modifies this`pending
      ensures Enumerates(order, ExpiredKeys(old(View()), now, timeout))
      ensures expired == OwedList(old(pending), order)
      ensures View() == Expire(old(View()), now, timeout)
    {
      ghost var all, before := ExpiredKeys(View(), now, timeout), pending;
      expired, order := [], [];
      var todo := pending.Keys;
      while todo != {}
        invariant todo <= before.Keys
        invariant Visited(order, all, todo * all)
        invariant expired == OwedList(before, order)
        invariant pending == before - (all - todo)
        decreases |todo|
      {
        var g :| g in todo;
        var p := pending[g];
        if now - p.startedAt > timeout {
          VisitNext(order, all, todo * all, g);
          OwedListSnoc(before, order, g);
          expired := expired + [Owed(p.client, p.localId, p.ticket)];
          order := order + [g];
          pending := pending - {g};
          assert (todo - {g}) * all == todo * all - {g};
        } else {
          assert g !in all;
          assert (todo - {g}) * all == todo * all;
        }
        todo := todo - {g};
      }
      assert all * {} == {};
    }
  }
}
