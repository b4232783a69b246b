/** Runs that show a natural claim to be false, with the exact condition under which it is
    true. */
module Counterexamples {
  import opened Wrappers
  import opened Json
  import opened Shared
  import opened Protocol
  import Ids
  import Generations
  import Announcement
  import Queueing

  lemma ClientTurn(s: System, m: System, c: nat, a: ClientAction) returns (n: System)
    requires Reaches(s, m) && ClientEnabled(m, c, a)
    ensures n == ClientStep(m, c, a) && Reaches(s, n)
  {
    Extend(s, m, ByClient(c, a));
    n := ClientStep(m, c, a);
  }

  function Start(config: Config): System {
    System(config, 0, 0,
           State(1, 1, {}, map[], map[], None, [], false, map[], false),
           map[], Queue([], true, []), Child(Starting, 0, 0, []),
           Routing([], Listening, 0, 0), Reaping([], 0), Book([], [], {}))
  }

  // ----- a response that comes too late

  /** Every response the router matches comes from the child after the last one reset. */
  ghost predicate MatchesOnlyCurrent(config: Config) {
    forall s, n :: Initial(s) && s.config == config && Reaches(s, n) && RouterEnabled(n, Route) &&
                   RouteStep(n).routing.router.Matched? ==>
      n.routing.events[0].generation == n.routing.resetsHandled + 1
  }

  /** A handshake notification, with the id `c1:1` unless such ids are ruled out. */
  function Handshaking(plain: bool): Value {
    if plain then Obj(map["method" := Str(INITIALIZED)])
    else Obj(map["method" := Str(INITIALIZED), "id" := Str(Ids.GlobalId(1, 1))])
  }

  const LIST := Obj(map["id" := Int(7), "method" := Str("tools/list")])

  lemma Disjoint()
    ensures !Ids.IsHeartbeatResponse(Ids.GlobalId(1, 1))
    ensures RoutingKey(Obj(map["id" := Str(Ids.GlobalId(1, 1))])) == Some(Ids.GlobalId(1, 1))
    ensures RoutingKey(Handshaking(false)) == Some(Ids.GlobalId(1, 1))
    ensures !ForgesId(Handshaking(true))
  {
    Ids.IdSpacesDisjoint(1, 1, 0, 0);
  }

  function Announced(config: Config): System {
    var notice := Handshaking(config.plainHandshakes);
    var s := Start(config);
    s.(shared := Register(s.shared, 0).(serverInitialized := true,
                                        handshakes := map[1 := Handshake(0, true, false, [])]),
       readers := map[1 := Idle],
       queue := Queue([Item(FromHandshake(1), notice)], true, [Item(FromHandshake(1), notice)]))
  }

  function Connected(config: Config): System {
    var s := Start(config);
    s.(shared := Register(s.shared, 0), readers := map[1 := Idle])
  }

  lemma ReachConnected(config: Config)
    ensures Reaches(Start(config), Connected(config))
  {
    Reached(Start(config));
    Extend(Start(config), Start(config), Connect);
    assert Apply(Start(config), Connect) == Connected(config);
  }

  function Announcing1(config: Config): System {
    var s, notice := Connected(config), Handshaking(config.plainHandshakes);
    s.(shared := s.shared.(serverInitialized := true), readers := map[1 := Announcing(notice)])
  }

  lemma ReachAnnouncing(config: Config)
    ensures Reaches(Start(config), Announcing1(config))
  {
    hide ErrorResponse, Sent, InitializeStep, ForwardStep, BufferStep, UnregisterStep, FinishHandshakeStep,
         RejectTooLargeStep, LeaveStep, Reaches;
    var s, a, notice := Start(config), Connected(config), Handshaking(config.plainHandshakes);
    Disjoint();
    ReachConnected(config);
    var b := ClientTurn(s, a, 1, Receive(notice, false));
    assert b == a.(readers := map[1 := Noted(notice, false)]);
    var c := ClientTurn(s, b, 1, ClaimInitialized);
    assert c == Announcing1(config);
  }

  lemma ReachAnnounced(config: Config)
    ensures Reaches(Start(config), Announced(config))
  {
    var s, a, notice := Start(config), Announcing1(config), Handshaking(config.plainHandshakes);
    ReachAnnouncing(config);
    var b := ClientTurn(s, a, 1, Announce);
    assert b == Announced(config).(shared := a.shared, readers := map[1 := Completing]);
    var c := ClientTurn(s, b, 1, FinishHandshake);
    assert c == Announced(config).(readers := map[1 := Flushing([])]);
    var d := ClientTurn(s, c, 1, FlushDone);
    assert d == Announced(config);
  }

  function Told(config: Config): System {
    var s := Announced(config);
    s.(queue := s.queue.(items := []), child := Child(Attached(None), 1, 0, [Attempt(1, s.queue.items[0])]))
  }

  lemma ReachTold(config: Config)
    ensures Reaches(Start(config), Told(config))
  {
    var s, a := Start(config), Announced(config);
    ReachAnnounced(config);
    var b, c: System;
    if config.lazyStart {
      b := ManagerTurn(s, a, TakeFirst);
      c := ManagerTurn(s, b, Spawn);
    } else {
      b := ManagerTurn(s, a, Spawn);
      c := ManagerTurn(s, b, TakeNext);
    }
    var d := ManagerTurn(s, c, WriteToChild);
    assert d == Told(config);
  }

  function Restarted(config: Config): System {
    var s := Told(config);
    s.(child := s.child.(manager := Starting, restarts := 1), routing := s.routing.(resetsHandled := 1))
  }

  lemma ReachRestarted(config: Config)
    ensures Reaches(Start(config), Restarted(config))
  {
    hide ClientEnabled, ClientStep, ReaperEnabled, ReaperStep, RouteStep, StoreReplyStep, LookUpStep, DeliverStep,
         Reaches;
    var s, a := Start(config), Told(config);
    ReachTold(config);
    var b := ManagerTurn(s, a, Detach(true));
    var c := ManagerTurn(s, b, SendReset);
    assert c.routing.events == [ResetEvent(1)];
    var d := ManagerTurn(s, c, ClearState);
    Extend(s, d, ByRouter(HandleReset([])));
    assert Apply(d, ByRouter(HandleReset([]))) == Restarted(config);
  }

  function Asking(config: Config): System {
    var s, id := Restarted(config), Ids.GlobalId(1, 1);
    s.(shared := File(s.shared, 1, Request(0, LIST), false, 0),
       readers := map[1 := Sending(Request(0, LIST), id, [])],
       book := Book([Arrival(1, LIST, false)], [AtPending(id)], {}))
  }

  function Cleared(config: Config): System {
    var s := Restarted(config);
    s.(readers := map[1 := Flushing([Request(0, LIST)])], book := Book([Arrival(1, LIST, false)], [AtReader], {}))
  }

  lemma ReachCleared(config: Config)
    ensures Reaches(Start(config), Cleared(config))
  {
    hide ErrorResponse, Sent, ForwardStep, BufferStep, UnregisterStep, FinishHandshakeStep, RejectTooLargeStep,
         LeaveStep, InitializeStep, Reaches;
    var s, a := Start(config), Restarted(config);
    ReachRestarted(config);
    var b := ClientTurn(s, a, 1, Receive(LIST, false));
    assert b == Cleared(config).(readers := map[1 := Asked(Request(0, LIST), false)]);
    var c := ClientTurn(s, b, 1, CheckHandshake);
    assert c == Cleared(config);
  }

  lemma ReachAsking(config: Config)
    ensures Reaches(Start(config), Asking(config))
  {
    hide Ids.GlobalId, ErrorResponse, Sent, InitializeStep, BufferStep, UnregisterStep, FinishHandshakeStep,
         RejectTooLargeStep, LeaveStep, Reaches;
    var s, a := Start(config), Cleared(config);
    ReachCleared(config);
    assert !Overloaded(a.shared);
    var d := ClientTurn(s, a, 1, ForwardNext);
    assert [AtReader][0 := AtPending(Ids.GlobalId(1, 1))] == [AtPending(Ids.GlobalId(1, 1))];
    assert [Request(0, LIST)][1..] == [];
    assert d == Asking(config);
  }

  /** The message of the first child that carries the id of the client's notification. */
  function Late(): Value {
    Obj(map["id" := Str(Ids.GlobalId(1, 1))])
  }

  lemma OldChildMayAnswer(config: Config, a: System)
    requires !config.honest || !config.plainHandshakes
    requires a.config == config && a.child == Restarted(config).child
    ensures Enabled(a, Emit(1, Late()))
  {
    Disjoint();
    if config.honest {
      assert a.child.attempts[0] == Attempt(1, Item(FromHandshake(1), Handshaking(false)));
      assert WasWritten(a.child.attempts, 1, Ids.GlobalId(1, 1));
    }
  }

  lemma EmitLate(config: Config, a: System) returns (b: System)
    requires !config.honest || !config.plainHandshakes
    requires Reaches(Start(config), a) && a.config == config && a.child == Restarted(config).child &&
             a.routing.events == []
    ensures Reaches(Start(config), b) && b == a.(routing := a.routing.(events := [Message(1, Late())]))
  {
    OldChildMayAnswer(config, a);
    Extend(Start(config), a, Emit(1, Late()));
    b := Apply(a, Emit(1, Late()));
    assert [] + [Message(1, Late())] == [Message(1, Late())];
  }

  lemma LateReplyMatches(config: Config)
    requires !config.honest || !config.plainHandshakes
    ensures !MatchesOnlyCurrent(config)
  {
    ReachAsking(config);
    var b := EmitLate(config, Asking(config));
    Disjoint();
    assert RouteStep(b).routing.router.Matched?;
    assert Initial(Start(config)) && Reaches(Start(config), b) && RouterEnabled(b, Route);
  }

  /** The router is safe from late responses exactly when children answer only ids written to
      them and no client smuggles such an id into a handshake notification. */
  lemma LateRepliesAreHarmlessIff(config: Config)
    ensures MatchesOnlyCurrent(config) <==> config.honest && config.plainHandshakes
  {
    if config.honest && config.plainHandshakes {
      forall s, n | Initial(s) && s.config == config && Reaches(s, n) && RouterEnabled(n, Route) &&
                    RouteStep(n).routing.router.Matched?
        ensures n.routing.events[0].generation == n.routing.resetsHandled + 1
      {
        var labels :| IsRun(s, labels) && Final(s, labels) == n;
        Generations.ResponsesComeFromTheCurrentChild(s, labels);
      }
    } else {
      LateReplyMatches(config);
    }
  }

  // ----- a response cached too late

  /** A cached response comes from the child after the last one reset, and if that child is
      gone its reset is still to come. */
  ghost predicate CachedIsCurrent(n: System) {
    n.shared.cached.Some? ==>
      && n.routing.cachedFrom == n.routing.resetsHandled + 1
      && (n.routing.cachedFrom < n.child.generation ==> ResetEvent(n.routing.cachedFrom) in n.routing.events)
  }

  ghost predicate CachesOnlyCurrent(config: Config) {
    forall s, n :: Initial(s) && s.config == config && Reaches(s, n) ==> CachedIsCurrent(n)
  }

  const INIT := Obj(map["id" := Int(0), "method" := Str(INITIALIZE)])

  /** After the restart, the client's initialize is filed under the id it put in its notification. */
  function Reinitializing(config: Config): System {
    var s, id := Restarted(config), Ids.GlobalId(1, 1);
    s.(shared := File(MarkInitializePending(s.shared, 1), 1, Request(0, INIT), true, 0),
       readers := map[1 := Sending(Request(0, INIT), id, [])],
       book := Book([Arrival(1, INIT, false)], [AtPending(id)], {}))
  }

  function AskedAgain(config: Config): System {
    var s := Restarted(config);
    s.(readers := map[1 := Asked(Request(0, INIT), false)], book := Book([Arrival(1, INIT, false)], [AtReader], {}))
  }

  lemma ReachAskedAgain(config: Config)
    ensures Reaches(Start(config), AskedAgain(config))
  {
    ReachRestarted(config);
    var b := ClientTurn(Start(config), Restarted(config), 1, Receive(INIT, false));
    assert b == AskedAgain(config);
  }

  lemma ReachReinitializing(config: Config)
    ensures Reaches(Start(config), Reinitializing(config))
  {
    hide Ids.GlobalId, ErrorResponse, Sent, ForwardStep, BufferStep, UnregisterStep, FinishHandshakeStep,
         RejectTooLargeStep, LeaveStep, Reaches;
    ReachAskedAgain(config);
    assert InitializeForwards(AskedAgain(config).shared);
    var d := ClientTurn(Start(config), AskedAgain(config), 1, InitializeRequest);
    assert [AtReader][0 := AtPending(Ids.GlobalId(1, 1))] == [AtPending(Ids.GlobalId(1, 1))];
    assert d == Reinitializing(config);
  }

  function LateCached(config: Config): System {
    var a := Reinitializing(config);
    var entry := Pending(1, Int(0), true, 0, 0);
    a.(shared := TakePending(a.shared, Ids.GlobalId(1, 1)).(cached := Some(Late())),
       routing := Routing([], Matched(1, Late(), entry, true), 1, 1),
       book := Book([Arrival(1, INIT, false)], [AtRouter], {}))
  }

  function LateMatched(config: Config): System {
    LateCached(config).(
      shared := TakePending(Reinitializing(config).shared, Ids.GlobalId(1, 1)),
      routing := Routing([], Matched(1, Late(), Pending(1, Int(0), true, 0, 0), false), 0, 1))
  }

  lemma ReachLateMatched(config: Config)
    requires !config.honest || !config.plainHandshakes
    ensures Reaches(Start(config), LateMatched(config))
  {
    ReachReinitializing(config);
    var b := EmitLate(config, Reinitializing(config));
    Disjoint();
    Extend(Start(config), b, ByRouter(Route));
    assert [AtPending(Ids.GlobalId(1, 1))][0 := AtRouter] == [AtRouter];
    assert RouteStep(b) == LateMatched(config);
  }

  lemma ReachLateCached(config: Config)
    requires !config.honest || !config.plainHandshakes
    ensures Reaches(Start(config), LateCached(config))
  {
    ReachLateMatched(config);
    assert LateMatched(config).shared.waiting == [];
    Extend(Start(config), LateMatched(config), ByRouter(StoreReply));
    assert StoreReplyStep(LateMatched(config)) == LateCached(config);
  }

  /** The same condition is exact for the cache: without it, a response of a child that was
      reset can be cached and stay. */
  lemma LateRepliesAreNotCachedIff(config: Config)
    ensures CachesOnlyCurrent(config) <==> config.honest && config.plainHandshakes
  {
    if config.honest && config.plainHandshakes {
      forall s, n | Initial(s) && s.config == config && Reaches(s, n) ensures CachedIsCurrent(n) {
        var labels :| IsRun(s, labels) && Final(s, labels) == n;
        Generations.StaleCacheOnlyUntilReset(s, labels);
      }
    } else {
      ReachLateCached(config);
      assert Initial(Start(config)) && !CachedIsCurrent(LateCached(config));
    }
  }

  // ----- two initializes

  /** Two initialize requests were offered to one child. */
  ghost predicate OfferedTwice(attempts: seq<Attempt>) {
    exists i, j :: 0 <= i < j < |attempts| && attempts[i].generation == attempts[j].generation &&
                   IsInitialize(attempts[i].item) && IsInitialize(attempts[j].item)
  }

  predicate IsInitialize(item: Item) {
    item.origin.FromRequest? && Method(item.body) == INITIALIZE
  }

  function FirstAsked(config: Config): System {
    var s, id := Start(config), Ids.GlobalId(1, 1);
    s.(shared := File(MarkInitializePending(Register(s.shared, 0), 1), 1, Request(0, INIT), true, 0),
       readers := map[1 := Sending(Request(0, INIT), id, [])],
       book := Book([Arrival(1, INIT, false)], [AtPending(id)], {}))
  }

  function FirstReceived(config: Config): System {
    var s := Connected(config);
    s.(readers := map[1 := Asked(Request(0, INIT), false)], book := Book([Arrival(1, INIT, false)], [AtReader], {}))
  }

  lemma ReachFirstReceived(config: Config)
    ensures Reaches(Start(config), FirstReceived(config))
  {
    ReachConnected(config);
    var b := ClientTurn(Start(config), Connected(config), 1, Receive(INIT, false));
    assert b == FirstReceived(config);
  }

  lemma ReachFirstAsked(config: Config)
    ensures Reaches(Start(config), FirstAsked(config))
  {
    hide Ids.GlobalId, ErrorResponse, Sent, ForwardStep, BufferStep, UnregisterStep, FinishHandshakeStep,
         RejectTooLargeStep, LeaveStep, Reaches;
    ReachFirstReceived(config);
    assert InitializeForwards(FirstReceived(config).shared);
    var c := ClientTurn(Start(config), FirstReceived(config), 1, InitializeRequest);
    assert [AtReader][0 := AtPending(Ids.GlobalId(1, 1))] == [AtPending(Ids.GlobalId(1, 1))];
    assert c == FirstAsked(config);
  }

  function SecondConnected(config: Config): System {
    var s := FirstAsked(config);
    s.(shared := Register(s.shared, 0), readers := s.readers[2 := Idle])
  }

  lemma ReachSecondConnected(config: Config)
    ensures Reaches(Start(config), SecondConnected(config))
  {
    ReachFirstAsked(config);
    Extend(Start(config), FirstAsked(config), Connect);
    assert Apply(FirstAsked(config), Connect) == SecondConnected(config);
  }

  function SecondAsked(config: Config): System {
    var s := SecondConnected(config);
    s.(readers := s.readers[2 := Asked(Request(1, INIT), false)],
       book := Book([Arrival(1, INIT, false), Arrival(2, INIT, false)], s.book.location + [AtReader], {}))
  }

  lemma ReachSecondAsked(config: Config)
    ensures Reaches(Start(config), SecondAsked(config))
  {
    ReachSecondConnected(config);
    var b := ClientTurn(Start(config), SecondConnected(config), 2, Receive(INIT, false));
    assert b == SecondAsked(config);
  }

  function Numbered(ticket: nat, id: string): Item {
    Item(FromRequest(ticket), SetId(INIT, Str(id)))
  }

  function FirstItem(): Item { Numbered(0, Ids.GlobalId(1, 1)) }

  function SecondItem(): Item { Numbered(1, Ids.GlobalId(2, 2)) }

  lemma BothAreFiled(config: Config)
    ensures InitializeForwards(SecondAsked(config).shared)
    ensures var n := InitializeStep(SecondAsked(config), 2);
      && n.readers == map[1 := Sending(Request(0, INIT), Ids.GlobalId(1, 1), []),
                          2 := Sending(Request(1, INIT), Ids.GlobalId(2, 2), [])]
      && n.queue == Queue([], true, []) && n.child == Child(Starting, 0, 0, []) && n.config == config
      && n.shared.cached == None
  {
    var a := SecondAsked(config);
    assert a.shared.pending == map[Ids.GlobalId(1, 1) := Pending(1, Int(0), true, 0, 0)];
    assert a.readers[2] == Asked(Request(1, INIT), false) && a.shared.nextGlobal == 2;
  }

  lemma FileBoth(config: Config) returns (n: System)
    ensures Reaches(Start(config), n) && n == InitializeStep(SecondAsked(config), 2)
  {
    ReachSecondAsked(config);
    n := ClientTurn(Start(config), SecondAsked(config), 2, InitializeRequest);
  }

  lemma QueueOne(config: Config, m: System, c: nat, ticket: nat, id: string) returns (n: System)
    requires Reaches(Start(config), m) && c in m.readers && m.readers[c] == Sending(Request(ticket, INIT), id, [])
    requires HasRoom(m.queue)
    ensures Reaches(Start(config), n) && n.queue == Offer(m.queue, Numbered(ticket, id))
    ensures n == m.(queue := n.queue, readers := m.readers[c := Flushing([])])
  {
    n := ClientTurn(Start(config), m, c, Enqueue);
  }

  /** Both requests are queued, and no child has been started yet. */
  lemma QueueBoth(config: Config) returns (n: System)
    ensures Reaches(Start(config), n) && n.config == config
    ensures n.queue.items == [FirstItem(), SecondItem()]
    ensures n.child == Child(Starting, 0, 0, []) && n.shared.cached == None
  {
    var a := FileBoth(config);
    BothAreFiled(config);
    hide InitializeStep, SecondAsked;
    var b := QueueOne(config, a, 1, 0, Ids.GlobalId(1, 1));
    n := QueueOne(config, b, 2, 1, Ids.GlobalId(2, 2));
  }

  lemma OfferFirst(config: Config, a: System) returns (n: System)
    requires Reaches(Start(config), a) && a.config == config && a.child == Child(Starting, 0, 0, [])
    requires a.queue.items == [FirstItem(), SecondItem()]
    ensures Reaches(Start(config), n) && n.queue.items == [SecondItem()] && n.shared == a.shared
    ensures n.child == Child(Attached(None), 1, 0, [Attempt(1, FirstItem())])
  {
    var s := Start(config);
    var b, d: System;
    if config.lazyStart {
      b := ManagerTurn(s, a, TakeFirst);
      d := ManagerTurn(s, b, Spawn);
    } else {
      b := ManagerTurn(s, a, Spawn);
      d := ManagerTurn(s, b, TakeNext);
    }
    n := ManagerTurn(s, d, WriteToChild);
  }

  lemma TwoAttempts()
    ensures OfferedTwice([Attempt(1, FirstItem()), Attempt(1, SecondItem())])
  {
    var attempts := [Attempt(1, FirstItem()), Attempt(1, SecondItem())];
    assert IsInitialize(attempts[0].item) && IsInitialize(attempts[1].item);
  }

  /** However the daemon is configured, some run offers one child two initialize requests
      while no response is cached. */
  lemma InitializeCanBeSentTwice(config: Config)
    ensures Initial(Start(config))
    ensures exists n :: Reaches(Start(config), n) && OfferedTwice(n.child.attempts) && n.shared.cached == None
  {
    var s := Start(config);
    var a := QueueBoth(config);
    var b := OfferFirst(config, a);
    var d := ManagerTurn(s, b, TakeNext);
    var n := ManagerTurn(s, d, WriteToChild);
    assert n.child.attempts == [Attempt(1, FirstItem()), Attempt(1, SecondItem())];
    TwoAttempts();
  }

  // ----- the announcement after a restart

  /** A child other than the first was told that a client is initialized. */
  ghost predicate TellsLaterChild(attempts: seq<Attempt>) {
    exists i :: 0 <= i < |attempts| && attempts[i].generation > 1 && Announcement.IsAnnouncement(attempts[i].item)
  }

  ghost predicate LaterChildCanBeTold(config: Config) {
    exists s, n :: Initial(s) && s.config == config && Reaches(s, n) && TellsLaterChild(n.child.attempts)
  }

  /** A probe, and behind it the announcement. */
  function ProbeAndNotice(config: Config): seq<Item> {
    [Item(FromProbe, ProbeMessage(0)), Item(FromHandshake(1), Handshaking(config.plainHandshakes))]
  }

  function Probed(config: Config): System {
    var s, items := Announcing1(config), ProbeAndNotice(config);
    s.(nextProbe := 1, readers := map[1 := Completing], queue := Queue(items, true, items))
  }

  lemma ReachProbed(config: Config)
    ensures Reaches(Start(config), Probed(config))
  {
    var s, a := Start(config), Announcing1(config);
    ReachAnnouncing(config);
    Extend(s, a, Probe);
    var b := Apply(a, Probe);
    var c := ClientTurn(s, b, 1, Announce);
    assert c == Probed(config);
  }

  function FirstChildGone(config: Config): System {
    var s, items := Probed(config), ProbeAndNotice(config);
    s.(queue := s.queue.(items := items[1..]),
       child := Child(Starting, 1, 1, [Attempt(1, items[0])]), routing := s.routing.(events := [ResetEvent(1)]))
  }

  function FirstChildFed(config: Config): System {
    var s, items := Probed(config), ProbeAndNotice(config);
    s.(queue := s.queue.(items := items[1..]), child := Child(Attached(None), 1, 0, [Attempt(1, items[0])]))
  }

  lemma ReachFirstChildFed(config: Config)
    ensures Reaches(Start(config), FirstChildFed(config))
  {
    hide ClientEnabled, ClientStep, RouterEnabled, RouterStep, ReaperEnabled, ReaperStep, ProbeMessage, Handshaking,
         Reaches;
    var s, a := Start(config), Probed(config);
    ReachProbed(config);
    var b, c: System;
    if config.lazyStart {
      b := ManagerTurn(s, a, TakeFirst);
      c := ManagerTurn(s, b, Spawn);
    } else {
      b := ManagerTurn(s, a, Spawn);
      c := ManagerTurn(s, b, TakeNext);
    }
    var d := ManagerTurn(s, c, WriteToChild);
    assert d == FirstChildFed(config);
  }

  lemma ReachFirstChildGone(config: Config)
    ensures Reaches(Start(config), FirstChildGone(config))
  {
    hide ClientEnabled, ClientStep, RouterEnabled, RouterStep, ReaperEnabled, ReaperStep, ProbeMessage, Handshaking,
         Reaches;
    var s := Start(config);
    ReachFirstChildFed(config);
    var b := ManagerTurn(s, FirstChildFed(config), Detach(true));
    var c := ManagerTurn(s, b, SendReset);
    var d := ManagerTurn(s, c, ClearState);
    assert d == FirstChildGone(config);
  }

  /** The queue outlives the first child, and the announcement with it. */
  lemma SecondChildIsTold(config: Config)
    requires config.maxRestarts != 1
    ensures LaterChildCanBeTold(config)
  {
    hide ClientEnabled, ClientStep, RouterEnabled, RouterStep, ReaperEnabled, ReaperStep, ProbeMessage, Reaches;
    var s, notice := Start(config), ProbeAndNotice(config)[1];
    ReachFirstChildGone(config);
    var b := ManagerTurn(s, FirstChildGone(config), Spawn);
    var c := ManagerTurn(s, b, TakeNext);
    var d := ManagerTurn(s, c, WriteToChild);
    assert d.child.attempts[1] == Attempt(2, notice) && Announcement.IsAnnouncement(notice);
    assert Initial(s);
  }

  /** Another child than the first can be the one that is told, unless there is no other. */
  lemma LaterChildIsToldIff(config: Config)
    ensures LaterChildCanBeTold(config) <==> config.maxRestarts != 1
  {
    if config.maxRestarts != 1 {
      SecondChildIsTold(config);
    } else {
      forall s, n | Initial(s) && s.config == config && Reaches(s, n) ensures !TellsLaterChild(n.child.attempts) {
        var labels :| IsRun(s, labels) && Final(s, labels) == n;
        NobodyIsLater(s, labels);
      }
    }
  }

  lemma NobodyIsLater(s: System, labels: seq<Label>)
    requires Initial(s) && IsRun(s, labels) && s.config.maxRestarts == 1
    ensures !TellsLaterChild(Final(s, labels).child.attempts)
  {
    hide Enabled, Apply, IsRun, Final;
    Queueing.RunKeepsQueue(s, labels);
  }
}
