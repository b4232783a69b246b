/** What a step leaves alone, for every kind of step. */
module Frames {
  import opened Wrappers
  import opened Json
  import Ids
  import opened Shared
  import opened Protocol
  import opened Effects

  /** A batch of sends changes nothing but the channels. */
  lemma {:induction false} PushAllOnlySends(st: State, items: seq<(nat, Delivery)>)
    ensures PushAll(st, items) == st.(outbox := PushAll(st, items).outbox)
    decreases |items|
  {
    if items != [] { PushAllOnlySends(Push(st, items[0].0, items[0].1), items[1..]); }
  }

  /** Failing everything owed leaves empty tables, and otherwise only sends. */
  lemma ResetOnlyClears(st: State, order: seq<string>, reason: string)
    requires forall i :: 0 <= i < |order| ==> order[i] in st.pending
    ensures var n := Reset(st, order, reason);
      n == st.(pending := map[], waiting := [], cached := None, initializing := false, outbox := n.outbox)
  {
    var drained := st.(pending := map[], waiting := [], cached := None, initializing := false);
    var half := PushAll(drained, Failures(OwedList(st.pending, order), reason));
    PushAllOnlySends(drained, Failures(OwedList(st.pending, order), reason));
    PushAllOnlySends(half, Failures(st.waiting, reason));
  }

  lemma CacheOnlySends(st: State, msg: Json.Value)
    ensures var n := CacheReply(st, msg);
      n == st.(cached := Some(msg), initializing := false, waiting := [], outbox := n.outbox)
  {
    PushAllOnlySends(st.(cached := Some(msg), initializing := false, waiting := []), Replies(st.waiting, msg));
  }

  /** Entries are only ever removed. */
  ghost predicate Fewer(before: map<string, Pending>, after: map<string, Pending>) {
    forall g :: g in after ==> g in before && after[g] == before[g]
  }

  ghost predicate OnlyFiles(before: map<string, Pending>, after: map<string, Pending>, c: nat, id: string, now: nat) {
    forall g :: g in after ==>
      (g in before && after[g] == before[g]) || (g == id && after[g].client == c && after[g].startedAt == now)
  }

  predicate MayFile(r: Reader) {
    r.Asked? || r.Flushing?
  }

  /** Only these regions put a request on file. */
  predicate IsFiling(change: Change) {
    change.Initializes? || change.Forwards?
  }

  lemma InitializeParts(st: State, c: nat, req: Request, now: nat)
    ensures var n := Initialize(st, c, req, now); var id := Ids.GlobalId(c, st.nextGlobal);
      && n.clients == st.clients && n.nextClient == st.nextClient && n.cached == st.cached
      && n.handshakes == MarkInitializePending(st, c).handshakes
      && (n.waiting == st.waiting || n.waiting == st.waiting + [Owed(c, LocalId(req.body), req.ticket)])
      && if InitializeForwards(st) then
           && n.nextGlobal == st.nextGlobal + 1
           && n.pending == st.pending[id := Pending(c, LocalId(req.body), true, now, req.ticket)]
         else n.nextGlobal == st.nextGlobal && n.pending == st.pending
  {
    hide ErrorResponse, SetId, LocalId, Sent, Ids.GlobalId;
  }

  lemma ChangedPending(st: State, c: nat, now: nat, change: Change)
    ensures var before, after := st.pending, Changed(st, c, now, change).pending;
      && OnlyFiles(before, after, c, Ids.GlobalId(c, st.nextGlobal), now)
      && (!IsFiling(change) ==> Fewer(before, after))
      && (|before| <= MAX_PENDING ==> |after| <= MAX_PENDING)
  {
    hide Initialize, ErrorResponse, SetId, LocalId, Sent, Ids.GlobalId;
    if change.Initializes? { InitializeParts(st, c, change.req, now); }
    if change.Unregisters? { FewerIsSmaller(st.pending, PendingExcept(st.pending, c)); }
  }

  lemma ClientStepPending(s: System, c: nat, a: ClientAction)
    requires ClientEnabled(s, c, a)
    ensures var before, after := s.shared.pending, ClientStep(s, c, a).shared.pending;
      && OnlyFiles(before, after, c, Ids.GlobalId(c, s.shared.nextGlobal), s.now)
      && (!MayFile(s.readers[c]) ==> Fewer(before, after))
      && (|before| <= MAX_PENDING ==> |after| <= MAX_PENDING)
  {
    hide ClientStep, ClientEnabled, Changed;
    ClientStepShared(s, c, a);
    ChangedPending(s.shared, c, s.now, ChangeBy(s.readers[c], a));
  }

  lemma {:induction false} WaitersExceptKept(waiting: seq<Owed>, c: nat)
    ensures forall w :: w in WaitersExcept(waiting, c) ==> w in waiting && w.client != c
  {
    if waiting != [] { WaitersExceptKept(waiting[..|waiting| - 1], c); }
  }

  lemma ChangedTables(st: State, c: nat, now: nat, change: Change)
    ensures var n := Changed(st, c, now, change);
      && n.clients <= st.clients && n.nextClient == st.nextClient
      && n.cached == st.cached && n.nextGlobal >= st.nextGlobal
      && (forall w :: w in n.waiting ==> w in st.waiting || w.client == c)
  {
    hide Initialize, ErrorResponse, SetId, LocalId, Sent, Ids.GlobalId;
    if change.Initializes? { InitializeParts(st, c, change.req, now); }
    if change.Unregisters? { WaitersExceptKept(st.waiting, c); }
  }

  lemma ClientStepTables(s: System, c: nat, a: ClientAction)
    requires ClientEnabled(s, c, a)
    ensures var n := ClientStep(s, c, a);
      && n.shared.clients <= s.shared.clients
      && n.shared.nextClient == s.shared.nextClient
      && n.shared.cached == s.shared.cached && n.shared.nextGlobal >= s.shared.nextGlobal
      && (forall w :: w in n.shared.waiting ==> w in s.shared.waiting || w.client == c)
  {
    hide ClientStep, ClientEnabled, Changed;
    ClientStepShared(s, c, a);
    ChangedTables(s.shared, c, s.now, ChangeBy(s.readers[c], a));
  }

  lemma FewerIsSmaller(before: map<string, Pending>, after: map<string, Pending>)
    requires Fewer(before, after)
    ensures |after| <= |before|
  {
    SubsetSize(after.Keys, before.Keys);
  }

  lemma {:induction false} SubsetSize(a: set<string>, b: set<string>)
    requires a <= b
    ensures |a| <= |b|
  {
    if a != {} {
      var x :| x in a;
      SubsetSize(a - {x}, b - {x});
    }
  }

  lemma ClientStepOtherReaders(s: System, c: nat, a: ClientAction)
    requires ClientEnabled(s, c, a)
    ensures var n := ClientStep(s, c, a); c in n.readers && n.readers == s.readers[c := n.readers[c]]
  {
    hide ClientStep, ClientEnabled, NextReader;
    ClientStepReader(s, c, a);
  }

  predicate TouchesHandshake(change: Change) {
    change.Completes? || change.Buffers? || change.Initializes? || change.Unregisters?
  }

  ghost predicate SparesOthers(before: map<nat, Handshake>, after: map<nat, Handshake>, c: nat) {
    && after.Keys <= before.Keys
    && forall d :: d != c && d in before ==> d in after && after[d] == before[d]
  }

  lemma ChangedHandshakes(st: State, c: nat, now: nat, change: Change)
    ensures SparesOthers(st.handshakes, Changed(st, c, now, change).handshakes, c)
    ensures !TouchesHandshake(change) ==> Changed(st, c, now, change).handshakes == st.handshakes
  {
    hide Initialize, ErrorResponse, SetId, LocalId, Sent, Ids.GlobalId;
    if change.Initializes? { InitializeParts(st, c, change.req, now); }
  }

  lemma ClientStepOtherHandshakes(s: System, c: nat, a: ClientAction)
    requires ClientEnabled(s, c, a)
    ensures var n := ClientStep(s, c, a);
      && n.shared.nextClient == s.shared.nextClient
      && SparesOthers(s.shared.handshakes, n.shared.handshakes, c)
  {
    hide ClientStep, ClientEnabled, Changed;
    ClientStepShared(s, c, a);
    ChangedTables(s.shared, c, s.now, ChangeBy(s.readers[c], a));
    ChangedHandshakes(s.shared, c, s.now, ChangeBy(s.readers[c], a));
  }

  /** The router's steps touch no reader, no handshake and no queue. */
  lemma RouterStepFrame(s: System, a: RouterAction)
    requires RouterEnabled(s, a)
    ensures var n := RouterStep(s, a);
      && n == s.(shared := n.shared, routing := n.routing, book := n.book)
      && n.book == s.book.(location := n.book.location)
      && n.shared == s.shared.(outbox := n.shared.outbox, pending := n.shared.pending, waiting := n.shared.waiting,
                               cached := n.shared.cached, initializing := n.shared.initializing)
      && Fewer(s.shared.pending, n.shared.pending)
  {
    if a.StoreReply? { CacheOnlySends(s.shared, s.routing.router.msg); }
    if a.HandleReset? { ResetOnlyClears(s.shared, a.order, RESTARTED); }
  }

  lemma ReaperStepFrame(s: System, a: ReaperAction)
    requires ReaperEnabled(s, a)
    ensures var n := ReaperStep(s, a);
      && n == s.(shared := n.shared, reaping := n.reaping, book := n.book)
      && n.book == s.book.(location := n.book.location)
      && n.shared == s.shared.(outbox := n.shared.outbox, pending := n.shared.pending)
      && Fewer(s.shared.pending, n.shared.pending)
  {
    PushAllOnlySends(s.shared, Failures(s.reaping.hand, TIMED_OUT));
  }

  lemma ManagerStepFrame(s: System, a: ManagerAction)
    requires ManagerEnabled(s, a)
    ensures var n := ManagerStep(s, a);
      && n == s.(shared := n.shared, queue := n.queue, child := n.child, routing := n.routing)
      && n.shared == s.shared.(cached := n.shared.cached, initializing := n.shared.initializing)
      && n.queue.enqueued == s.queue.enqueued
      && n.routing == s.routing.(events := n.routing.events)
  {
  }
}
