/** Children come and go; a response is only ever matched with a request that was written
    to the child it came from. */
module Generations {
  import opened Wrappers
  import opened Json
  import opened Shared
  import opened Protocol
  import opened Effects
  import opened Frames
  import Ids

  function ResetsIn(events: seq<Event>): nat {
    if events == [] then 0
    else ResetsIn(events[..|events| - 1]) + if events[|events| - 1].ResetEvent? then 1 else 0
  }

  lemma {:induction false} ResetsAfterHead(events: seq<Event>)
    requires events != []
    ensures ResetsIn(events) == ResetsIn(events[1..]) + if events[0].ResetEvent? then 1 else 0
  {
    if |events| > 1 {
      var init := events[..|events| - 1];
      ResetsAfterHead(init);
      assert init[1..] == events[1..][..|events| - 2];
    } else {
      assert events[..0] == [];
    }
  }

  lemma {:induction false} SomeResetQueued(events: seq<Event>)
    requires ResetsIn(events) > 0
    ensures exists i :: 0 <= i < |events| && events[i].ResetEvent? && ResetsIn(events[..i]) == 0
  {
    var init, last := events[..|events| - 1], |events| - 1;
    if ResetsIn(init) > 0 {
      SomeResetQueued(init);
      var i :| 0 <= i < |init| && init[i].ResetEvent? && ResetsIn(init[..i]) == 0;
      assert events[..i] == init[..i] && events[i] == init[i];
    } else {
      assert events[last].ResetEvent?;
    }
  }

  /** If this message's id could be looked up among forwarded ids, it was handed out. */
  ghost predicate KeyIssued(msg: Value, limit: nat) {
    forall c: nat, n: nat :: RoutingKey(msg) == Some(Ids.GlobalId(c, n)) ==> Ids.IssuedBelow(Ids.GlobalId(c, n), limit)
  }

  /** Resets are numbered consecutively, and nothing in the queue of events is from a child
      later than the next one to be reset. */
  ghost predicate EventsOrdered(events: seq<Event>, handled: nat) {
    forall i :: 0 <= i < |events| ==>
      if events[i].ResetEvent? then events[i].generation == handled + 1 + ResetsIn(events[..i])
      else events[i].generation <= handled + 1 + ResetsIn(events[..i])
  }

  ghost predicate ItemsIssued(items: seq<Item>, limit: nat) {
    forall i :: 0 <= i < |items| ==> KeyIssued(items[i].body, limit)
  }

  ghost predicate HoldsObjects(r: Reader) {
    forall i :: 0 <= i < |Held(r)| ==> Held(r)[i].body.Obj?
  }

  ghost predicate CarriesIssued(r: Reader, limit: nat) {
    && (r.Sending? ==> Ids.IssuedBelow(r.id, limit) && r.req.body.Obj?)
    && (r.Noted? && !r.tooLarge ==> KeyIssued(r.msg, limit))
    && (r.Announcing? ==> KeyIssued(r.msg, limit))
  }

  ghost predicate ReaderIssued(r: Reader, limit: nat) {
    HoldsObjects(r) && CarriesIssued(r, limit)
  }

  ghost predicate ReadersIssued(readers: map<nat, Reader>, limit: nat) {
    forall c :: c in readers ==> ReaderIssued(readers[c], limit)
  }

  ghost predicate HandIssued(m: Manager, limit: nat) {
    && (m.HoldingFirst? ==> KeyIssued(m.first.body, limit))
    && (m.Attached? && m.hand.Some? ==> KeyIssued(m.hand.value.body, limit))
  }

  ghost predicate AttemptsIssued(attempts: seq<Attempt>, limit: nat) {
    forall i :: 0 <= i < |attempts| ==> KeyIssued(attempts[i].item.body, limit)
  }

  ghost predicate BuffersAreObjects(handshakes: map<nat, Handshake>) {
    forall c, i :: c in handshakes && 0 <= i < |handshakes[c].buffered| ==> handshakes[c].buffered[i].body.Obj?
  }

  /** Requests on file were not written to any child that the router has seen the end of. */
  ghost predicate PendingCurrent(pending: map<string, Pending>, attempts: seq<Attempt>, handled: nat) {
    forall g, i :: g in pending && 0 <= i < |attempts| && RoutingKey(attempts[i].item.body) == Some(g) ==>
      attempts[i].generation > handled
  }

  ghost predicate EventsHonest(events: seq<Event>, attempts: seq<Attempt>) {
    forall i :: 0 <= i < |events| && events[i].Message? && RoutingKey(events[i].msg).Some? ==>
      WasWritten(attempts, events[i].generation, RoutingKey(events[i].msg).value)
  }

  ghost predicate RoutingInv(k: Child, r: Routing) {
    && k.generation == r.resetsHandled + ResetsIn(r.events) +
       (if k.manager.Attached? || k.manager.Detached? then 1 else 0)
    && EventsOrdered(r.events, r.resetsHandled)
    && EventsHonest(r.events, k.attempts)
    && (r.router.Matched? ==> r.router.generation == r.resetsHandled + 1)
  }

  ghost predicate IdsInv(s: System) {
    && ItemsIssued(s.queue.items, s.shared.nextGlobal)
    && ReadersIssued(s.readers, s.shared.nextGlobal)
    && BuffersAreObjects(s.shared.handshakes)
    && HandIssued(s.child.manager, s.shared.nextGlobal)
    && AttemptsIssued(s.child.attempts, s.shared.nextGlobal)
  }

  ghost predicate GenerationInv(s: System) {
    && s.config.honest && s.config.plainHandshakes
    && RoutingInv(s.child, s.routing)
    && IdsInv(s)
    && PendingCurrent(s.shared.pending, s.child.attempts, s.routing.resetsHandled)
    && (s.shared.cached.Some? ==> s.routing.cachedFrom == s.routing.resetsHandled + 1)
  }

  lemma IssuedGrows(low: nat, high: nat)
    requires low <= high
    ensures forall id: string :: Ids.IssuedBelow(id, low) ==> Ids.IssuedBelow(id, high)
    ensures forall msg: Value :: KeyIssued(msg, low) ==> KeyIssued(msg, high)
  {
    forall id: string | Ids.IssuedBelow(id, low) ensures Ids.IssuedBelow(id, high) {
      Ids.IssuedMonotone(id, low, high);
    }
  }

  // ----- steps of a client

  /** A client step leaves the children, the router and the cached response alone, and
      only ever removes from the pending table or files under the next id. */
  lemma ClientStepFrame(s: System, c: nat, a: ClientAction)
    requires ClientEnabled(s, c, a)
    ensures var n := ClientStep(s, c, a);
      && n.config == s.config && n.child == s.child && n.routing == s.routing
      && n.shared.cached == s.shared.cached
      && n.shared.nextGlobal >= s.shared.nextGlobal
      && forall g :: g in n.shared.pending ==>
           g in s.shared.pending || exists c: nat :: g == Ids.GlobalId(c, s.shared.nextGlobal)
  {
    hide ClientStep, ClientEnabled;
    ClientStepElsewhere(s, c, a);
    ClientStepTables(s, c, a);
    ClientStepPending(s, c, a);
  }

  lemma PendingStaysCurrent(
    before: map<string, Pending>, after: map<string, Pending>, attempts: seq<Attempt>, handled: nat, nextGlobal: nat)
    requires PendingCurrent(before, attempts, handled) && AttemptsIssued(attempts, nextGlobal)
    requires forall g :: g in after ==> g in before || exists c: nat :: g == Ids.GlobalId(c, nextGlobal)
    ensures PendingCurrent(after, attempts, handled)
  {
    forall g, i | g in after && g !in before && 0 <= i < |attempts|
      ensures RoutingKey(attempts[i].item.body) != Some(g)
    {
      var c: nat :| g == Ids.GlobalId(c, nextGlobal);
      Ids.NextIdIsFresh(c, nextGlobal);
      assert KeyIssued(attempts[i].item.body, nextGlobal);
    }
  }

  /** What is put in a buffer is an object. */
  lemma ChangedBuffers(st: State, c: nat, now: nat, change: Change)
    requires BuffersAreObjects(st.handshakes) && (change.Buffers? ==> change.req.body.Obj?)
    ensures BuffersAreObjects(Changed(st, c, now, change).handshakes)
  {
    hide ErrorResponse, SetId, LocalId, Sent, Ids.GlobalId;
  }

  lemma ClientStepBuffers(s: System, c: nat, a: ClientAction)
    requires c in s.readers && HoldsObjects(s.readers[c]) && BuffersAreObjects(s.shared.handshakes)
    requires ClientEnabled(s, c, a)
    ensures BuffersAreObjects(ClientStep(s, c, a).shared.handshakes)
  {
    hide ClientStep, ClientEnabled, Changed;
    ClientStepShared(s, c, a);
    assert Held(s.readers[c]) != [] ==> Held(s.readers[c])[0].body.Obj?;
    ChangedBuffers(s.shared, c, s.now, ChangeBy(s.readers[c], a));
  }

  lemma ClientStepHoldsObjects(s: System, c: nat, a: ClientAction)
    requires c in s.readers && HoldsObjects(s.readers[c]) && BuffersAreObjects(s.shared.handshakes)
    requires ClientEnabled(s, c, a)
    ensures c in ClientStep(s, c, a).readers && HoldsObjects(ClientStep(s, c, a).readers[c])
  {
    hide ClientStep, ClientEnabled;
    ClientStepReader(s, c, a);
    assert Held(s.readers[c]) != [] ==> Held(s.readers[c])[0].body.Obj?;
  }

  lemma ClientStepCarries(s: System, c: nat, a: ClientAction)
    requires c in s.readers && ReaderIssued(s.readers[c], s.shared.nextGlobal)
    requires s.config.plainHandshakes && ClientEnabled(s, c, a)
    ensures var n := ClientStep(s, c, a); c in n.readers && CarriesIssued(n.readers[c], n.shared.nextGlobal)
  {
    hide ClientStep;
    var limit := s.shared.nextGlobal;
    ClientStepShared(s, c, a);
    ClientStepReader(s, c, a);
    assert Held(s.readers[c]) != [] ==> Held(s.readers[c])[0].body.Obj?;
    if a.InitializeRequest? || a.ForwardNext? {
      assert Ids.IssuedBelow(Ids.GlobalId(c, limit), limit + 1);
    }
  }

  lemma ClientStepReaders(s: System, c: nat, a: ClientAction)
    requires ReadersIssued(s.readers, s.shared.nextGlobal) && BuffersAreObjects(s.shared.handshakes)
    requires s.config.plainHandshakes && ClientEnabled(s, c, a)
    ensures var n := ClientStep(s, c, a); ReadersIssued(n.readers, n.shared.nextGlobal)
  {
    hide ClientStep;
    var n := ClientStep(s, c, a);
    assert ReaderIssued(s.readers[c], s.shared.nextGlobal);
    ClientStepHoldsObjects(s, c, a);
    ClientStepCarries(s, c, a);
    ClientStepOtherReaders(s, c, a);
    ClientStepFrame(s, c, a);
    IssuedGrows(s.shared.nextGlobal, n.shared.nextGlobal);
  }

  /** What a reader offers to the queue is what it carries. */
  lemma OfferedIsIssued(r: Reader, limit: nat)
    requires ReaderIssued(r, limit)
    ensures r.Sending? ==> KeyIssued(SetId(r.req.body, Str(r.id)), limit)
    ensures (r.Noted? && !r.tooLarge) || r.Announcing? ==> KeyIssued(r.msg, limit)
  {
  }

  lemma ClientStepQueue(s: System, c: nat, a: ClientAction)
    requires ReadersIssued(s.readers, s.shared.nextGlobal) && ItemsIssued(s.queue.items, s.shared.nextGlobal)
    requires ClientEnabled(s, c, a)
    ensures var n := ClientStep(s, c, a); ItemsIssued(n.queue.items, n.shared.nextGlobal)
  {
    hide ClientStep, ClientEnabled;
    var n := ClientStep(s, c, a);
    ClientStepFrame(s, c, a);
    IssuedGrows(s.shared.nextGlobal, n.shared.nextGlobal);
    ClientStepReader(s, c, a);
    assert ReaderIssued(s.readers[c], s.shared.nextGlobal);
    OfferedIsIssued(s.readers[c], s.shared.nextGlobal);
    ClientStepOffers(s, c, a);
  }

  /** A client step leaves the queue alone or appends what its reader carries. */
  lemma ClientStepOffers(s: System, c: nat, a: ClientAction)
    requires ClientEnabled(s, c, a)
    ensures var r, items := s.readers[c], ClientStep(s, c, a).queue.items;
      || items == s.queue.items
      || (r.Sending? && items == s.queue.items + [Item(FromRequest(r.req.ticket), SetId(r.req.body, Str(r.id)))])
      || (r.Noted? && !r.tooLarge && items == s.queue.items + [Item(FromNotice(c), r.msg)])
      || (r.Announcing? && items == s.queue.items + [Item(FromHandshake(c), r.msg)])
  {
  }

  lemma ClientStepKeepsGenerations(s: System, c: nat, a: ClientAction)
    requires GenerationInv(s) && ClientEnabled(s, c, a)
    ensures GenerationInv(ClientStep(s, c, a))
  {
    var n := ClientStep(s, c, a);
    ClientStepFrame(s, c, a);
    PendingStaysCurrent(s.shared.pending, n.shared.pending, s.child.attempts, s.routing.resetsHandled,
                        s.shared.nextGlobal);
    ClientStepReaders(s, c, a);
    assert ReaderIssued(s.readers[c], s.shared.nextGlobal);
    ClientStepBuffers(s, c, a);
    ClientStepQueue(s, c, a);
    IssuedGrows(s.shared.nextGlobal, n.shared.nextGlobal);
  }

  // ----- steps of the manager and of the children

  lemma EventAppended(events: seq<Event>, e: Event)
    ensures ResetsIn(events + [e]) == ResetsIn(events) + if e.ResetEvent? then 1 else 0
    ensures forall i :: 0 <= i <= |events| ==> (events + [e])[..i] == events[..i]
  {
    assert (events + [e])[..|events|] == events;
  }

  lemma EmitKeepsRouting(k: Child, r: Routing, g: nat, msg: Value)
    requires RoutingInv(k, r) && g <= k.generation
    requires RoutingKey(msg).Some? ==> WasWritten(k.attempts, g, RoutingKey(msg).value)
    ensures RoutingInv(k, r.(events := r.events + [Message(g, msg)]))
  {
    EventAppended(r.events, Message(g, msg));
    assert r.events[..|r.events|] == r.events;
  }

  lemma SendResetKeepsRouting(k: Child, r: Routing)
    requires RoutingInv(k, r) && k.manager.Detached?
    ensures RoutingInv(k.(manager := Clearing(k.manager.restart)), r.(events := r.events + [ResetEvent(k.generation)]))
  {
    EventAppended(r.events, ResetEvent(k.generation));
    assert r.events[..|r.events|] == r.events;
  }

  /** A write goes to the current child, which is younger than any the router saw die. */
  lemma WriteKeepsRouting(k: Child, r: Routing, pending: map<string, Pending>, item: Item)
    requires RoutingInv(k, r) && PendingCurrent(pending, k.attempts, r.resetsHandled)
    requires k.manager.Attached?
    ensures var attempts := k.attempts + [Attempt(k.generation, item)];
      && RoutingInv(k.(manager := Attached(None), attempts := attempts), r)
      && PendingCurrent(pending, attempts, r.resetsHandled)
  {
    var attempts := k.attempts + [Attempt(k.generation, item)];
    forall g: nat, id: string | WasWritten(k.attempts, g, id) ensures WasWritten(attempts, g, id) {
      var i :| 0 <= i < |k.attempts| && k.attempts[i].generation == g &&
               RoutingKey(k.attempts[i].item.body) == Some(id);
      assert attempts[i] == k.attempts[i];
    }
  }

  lemma ManagerStepKeepsIds(s: System, a: ManagerAction)
    requires IdsInv(s) && ManagerEnabled(s, a)
    ensures IdsInv(ManagerStep(s, a))
  {
  }

  lemma ManagerStepKeepsGenerations(s: System, a: ManagerAction)
    requires GenerationInv(s) && ManagerEnabled(s, a)
    ensures GenerationInv(ManagerStep(s, a))
  {
    ManagerStepKeepsIds(s, a);
    if a.SendReset? {
      SendResetKeepsRouting(s.child, s.routing);
    } else if a.WriteToChild? {
      WriteKeepsRouting(s.child, s.routing, s.shared.pending, s.child.manager.hand.value);
    }
  }

  // ----- steps of the router

  lemma HeadDropped(r: Routing)
    requires r.events != [] && EventsOrdered(r.events, r.resetsHandled)
    ensures var handled := if r.events[0].ResetEvent? then r.events[0].generation else r.resetsHandled;
      && EventsOrdered(r.events[1..], handled)
      && handled + ResetsIn(r.events[1..]) == r.resetsHandled + ResetsIn(r.events)
      && (if r.events[0].ResetEvent? then r.events[0].generation == r.resetsHandled + 1
          else r.events[0].generation <= r.resetsHandled + 1)
  {
    var rest := r.events[1..];
    assert r.events[..0] == [];
    ResetsAfterHead(r.events);
    forall i | 0 <= i < |rest|
      ensures rest[i] == r.events[i + 1]
      ensures ResetsIn(r.events[..i + 1]) == ResetsIn(rest[..i]) + if r.events[0].ResetEvent? then 1 else 0
    {
      ResetsAfterHead(r.events[..i + 1]);
      assert r.events[..i + 1][1..] == rest[..i];
    }
  }

  /** A response found on the pending table comes from the child after the last one whose
      end the router has seen. */
  lemma MatchIsCurrent(s: System)
    requires GenerationInv(s) && s.routing.events != [] && s.routing.events[0].Message?
    requires var key := RoutingKey(s.routing.events[0].msg); key.Some? && key.value in s.shared.pending
    ensures s.routing.events[0].generation == s.routing.resetsHandled + 1
  {
    var e := s.routing.events[0];
    assert WasWritten(s.child.attempts, e.generation, RoutingKey(e.msg).value);
    HeadDropped(s.routing);
  }

  lemma RouteKeepsGenerations(s: System)
    requires GenerationInv(s) && RouterEnabled(s, Route)
    ensures GenerationInv(RouteStep(s))
  {
    hide KeyIssued, ReadersIssued, BuffersAreObjects;
    HeadDropped(s.routing);
    var key := RoutingKey(s.routing.events[0].msg);
    if key.Some? && key.value in s.shared.pending { MatchIsCurrent(s); }
  }

  lemma ResetKeepsGenerations(s: System, order: seq<string>)
    requires GenerationInv(s) && RouterEnabled(s, HandleReset(order))
    ensures GenerationInv(HandleResetStep(s, order))
  {
    HeadDropped(s.routing);
    ResetOnlyClears(s.shared, order, RESTARTED);
  }

  lemma RouterStepKeepsGenerations(s: System, a: RouterAction)
    requires GenerationInv(s) && RouterEnabled(s, a)
    ensures GenerationInv(RouterStep(s, a))
  {
    match a
    case Route => RouteKeepsGenerations(s);
    case StoreReply =>
      CacheOnlySends(s.shared, s.routing.router.msg);
    case HandleReset(order) => ResetKeepsGenerations(s, order);
    case _ =>
  }

  lemma ReaperStepKeepsGenerations(s: System, a: ReaperAction)
    requires GenerationInv(s) && ReaperEnabled(s, a)
    ensures GenerationInv(ReaperStep(s, a))
  {
    PushAllOnlySends(s.shared, Failures(s.reaping.hand, TIMED_OUT));
  }

  lemma ProbeKeepsGenerations(s: System)
    requires GenerationInv(s) && Enabled(s, Probe)
    ensures GenerationInv(Apply(s, Probe))
  {
    Ids.IdSpacesDisjoint(0, 0, s.nextProbe, 0);
  }

  lemma StepKeepsGenerations(s: System, l: Label)
    requires GenerationInv(s) && Enabled(s, l)
    ensures GenerationInv(Apply(s, l))
  {
    match l
    case ByClient(c, a) => ClientStepKeepsGenerations(s, c, a);
    case ByManager(a) => ManagerStepKeepsGenerations(s, a);
    case ByRouter(a) => RouterStepKeepsGenerations(s, a);
    case ByReaper(a) => ReaperStepKeepsGenerations(s, a);
    case Probe => ProbeKeepsGenerations(s);
    case Emit(g, msg) => EmitKeepsRouting(s.child, s.routing, g, msg);
    case Connect =>
    case Pass(_) =>
  }

  lemma {:induction false} RunKeepsGenerations(s: System, labels: seq<Label>)
    requires GenerationInv(s) && IsRun(s, labels)
    ensures GenerationInv(Final(s, labels))
    decreases |labels|
  {
    hide Enabled, Apply, GenerationInv;
    if labels != [] {
      StepKeepsGenerations(s, labels[0]);
      RunKeepsGenerations(Apply(s, labels[0]), labels[1..]);
    }
  }

  // ----- theorems

  /** In every run with honest children, the response the router takes off the pending
      table comes from the child right after the last one whose reset it has handled; a
      late message of an earlier child matches nothing. */
  lemma ResponsesComeFromTheCurrentChild(s: System, labels: seq<Label>)
    requires Initial(s) && IsRun(s, labels) && s.config.honest && s.config.plainHandshakes
    requires RouterEnabled(Final(s, labels), Route)
    ensures var n := Final(s, labels);
      var e := n.routing.events[0];
      && (RouteStep(n).routing.router.Matched? ==> e.generation == n.routing.resetsHandled + 1)
      && (e.generation <= n.routing.resetsHandled && !IsBroadcast(e.msg) ==>
            RouteStep(n) == n.(routing := n.routing.(events := n.routing.events[1..])))
  {
    hide Enabled, Apply, IsRun, Final;
    RunKeepsGenerations(s, labels);
    var n := Final(s, labels);
    var key := RoutingKey(n.routing.events[0].msg);
    if key.Some? && key.value in n.shared.pending { MatchIsCurrent(n); }
  }

  /** A cached initialize response of an earlier child only survives while the reset of
      that child is still waiting to be handled. */
  lemma StaleCacheOnlyUntilReset(s: System, labels: seq<Label>)
    requires Initial(s) && IsRun(s, labels) && s.config.honest && s.config.plainHandshakes
    ensures var n := Final(s, labels);
      n.shared.cached.Some? ==>
        && n.routing.cachedFrom == n.routing.resetsHandled + 1
        && (n.routing.cachedFrom < n.child.generation ==> ResetEvent(n.routing.cachedFrom) in n.routing.events)
  {
    hide Enabled, Apply, IsRun, Final;
    RunKeepsGenerations(s, labels);
    var n := Final(s, labels);
    if n.shared.cached.Some? && n.routing.cachedFrom < n.child.generation {
      SomeResetQueued(n.routing.events);
      var i :| 0 <= i < |n.routing.events| && n.routing.events[i].ResetEvent? && ResetsIn(n.routing.events[..i]) == 0;
      assert n.routing.events[i] == ResetEvent(n.routing.cachedFrom);
    }
  }
}
