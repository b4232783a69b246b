/** What a client is told: the child's answer to its own request. */
module Responses {
  import opened Wrappers
  import opened Json
  import opened Shared
  import opened Protocol
  import opened Frames
  import Ids
  import Ledger
  import Provenance
  import Isolation
  import Initialization
  import Tasks

  /** What one client is due when the message is matched with this entry: an answer to the entry
      if it is its own, after one to each initialize it waits with. */
  function Due(st: State, entry: Pending, d: nat): seq<Owed> {
    (if entry.isInitialize && d in st.clients then Initialization.WaitersOf(st.waiting, d) else []) +
    if d == entry.client && d in st.clients then [OwedFor(entry)] else []
  }

  lemma LookUpAndDeliver(s: System, d: nat)
    requires s.routing.router.Matched?
    ensures var a := LookUpStep(s); var b := if a.routing.router.Holding? then DeliverStep(a) else a;
      var entry := s.routing.router.entry;
      && Initialization.Adds(Sent(s.shared.outbox, d), Sent(b.shared.outbox, d),
                             if d == entry.client && d in s.shared.clients then [OwedFor(entry)] else [],
                             s.routing.router.msg)
      && b.shared.pending == s.shared.pending && b.shared.clients == s.shared.clients
      && b.shared.cached == s.shared.cached
  {
    var msg, entry := s.routing.router.msg, s.routing.router.entry;
    if msg.Obj? { SetIdReplacesOnlyId(msg, entry.localId); }
  }

  lemma AddsTwice(a: seq<Delivery>, b: seq<Delivery>, c: seq<Delivery>, xs: seq<Owed>, ys: seq<Owed>, msg: Value)
    requires Initialization.Adds(a, b, xs, msg) && Initialization.Adds(b, c, ys, msg)
    ensures Initialization.Adds(a, c, xs + ys, msg)
  {
    hide OnlyIdDiffers;
    assert c[|a|..] == b[|a|..] + c[|b|..];
  }

  /** What an uninterrupted turn of the router does with a child's message. */
  lemma RoutedDelivers(s: System, d: nat)
    requires s.routing.router.Listening? && s.routing.events != [] && s.routing.events[0].Message?
    requires !IsBroadcast(s.routing.events[0].msg) && s.shared.clients <= s.shared.outbox.Keys
    ensures var n, msg := Tasks.Routed(s), s.routing.events[0].msg;
      var key := RoutingKey(msg);
      if key.Some? && key.value in s.shared.pending then
        var entry := s.shared.pending[key.value];
        && n.shared.pending == s.shared.pending - {key.value}
        && n.shared.cached == (if entry.isInitialize then Some(msg) else s.shared.cached)
        && Initialization.Adds(Sent(s.shared.outbox, d), Sent(n.shared.outbox, d), Due(s.shared, entry, d), msg)
      else n.shared == s.shared
  {
    hide Initialization.Answering;
    var msg := s.routing.events[0].msg;
    var a := RouteStep(s);
    if a.routing.router.Matched? {
      var entry := a.routing.router.entry;
      if entry.isInitialize {
        var b := StoreReplyStep(a);
        Initialization.WaitersAreAnswered(a, d);
        CacheOnlySends(a.shared, msg);
        LookUpAndDeliver(b, d);
        AddsTwice(Sent(a.shared.outbox, d), Sent(b.shared.outbox, d), Sent(Tasks.Routed(s).shared.outbox, d),
                  if d in a.shared.clients then Initialization.WaitersOf(a.shared.waiting, d) else [],
                  if d == entry.client && d in a.shared.clients then [OwedFor(entry)] else [], msg);
      } else {
        LookUpAndDeliver(a, d);
        var own := if d == entry.client && d in a.shared.clients then [OwedFor(entry)] else [];
        assert [] + own == own && Due(s.shared, entry, d) == own;
      }
    }
  }

  /** An id that is on file is looked up for a message that has it, and for no other. */
  lemma LookedUpIff(s: System, msg: Value, g: string)
    requires Ledger.LedgerInv(s) && g in s.shared.pending
    ensures RoutingKey(msg) == Some(g) <==> Get(msg, "id") == Some(Str(g))
  {
    var c: nat, n: nat :| g == Ids.GlobalId(c, n);
    Ids.IdSpacesDisjoint(c, n, 0, 0);
    if RoutingKey(msg) == Some(g) { Provenance.KeyIsId(msg, g, s.shared.nextGlobal); }
  }

  /** In every reachable state: a child message whose id is outstanding is delivered to the
      client that sent the request filed under that id, once, under the id that client used
      and otherwise unchanged; nobody else is sent anything, except that the response to an
      initialize also answers everybody who waited for one. */
  lemma ResponseReachesItsAsker(s: System, labels: seq<Label>, g: string, d: nat)
    requires Initial(s) && IsRun(s, labels) && RouterEnabled(Final(s, labels), Route)
    requires g in Final(s, labels).shared.pending
    requires Get(Final(s, labels).routing.events[0].msg, "id") == Some(Str(g))
    ensures var n := Final(s, labels);
      var m, msg, entry := Tasks.Routed(n), n.routing.events[0].msg, n.shared.pending[g];
      && entry.ticket < |n.book.requests| && n.book.requests[entry.ticket].client == entry.client
      && Get(n.book.requests[entry.ticket].body, "id") == Some(entry.localId)
      && Ledger.At(n.book.location, entry.ticket, AtPending(g))
      && m.shared.pending == n.shared.pending - {g}
      && Initialization.Adds(Sent(n.shared.outbox, d), Sent(m.shared.outbox, d), Due(n.shared, entry, d), msg)
  {
    hide Enabled, Apply, IsRun, Final, Initialization.Adds, Tasks.Routed;
    Ledger.RunKeepsLedger(s, labels);
    Isolation.RunKeepsIsolation(s, labels);
    var n := Final(s, labels);
    LookedUpIff(n, n.routing.events[0].msg, g);
    RoutedDelivers(n, d);
  }

  /** A message with any other id, null apart, changes nothing. */
  lemma UnknownIdsChangeNothing(s: System, labels: seq<Label>)
    requires Initial(s) && IsRun(s, labels) && RouterEnabled(Final(s, labels), Route)
    requires var id := Get(Final(s, labels).routing.events[0].msg, "id");
      id.Some? && id != Some(Null) && forall g :: g in Final(s, labels).shared.pending ==> id != Some(Str(g))
    ensures Tasks.Routed(Final(s, labels)).shared == Final(s, labels).shared
  {
    hide Enabled, Apply, IsRun, Final;
    Ledger.RunKeepsLedger(s, labels);
    var n := Final(s, labels);
    var key := RoutingKey(n.routing.events[0].msg);
    if key.Some? && key.value in n.shared.pending { LookedUpIff(n, n.routing.events[0].msg, key.value); }
  }

  /** A message without an id, or with a null one, goes to every registered client as it is, once,
      and to nobody else, and leaves the tables alone. */
  lemma NotificationsReachEverybody(s: System, labels: seq<Label>, d: nat)
    requires Initial(s) && IsRun(s, labels) && RouterEnabled(Final(s, labels), Route)
    requires var id := Get(Final(s, labels).routing.events[0].msg, "id"); id == None || id == Some(Null)
    ensures var n := Final(s, labels);
      var m, msg := Tasks.Routed(n), n.routing.events[0].msg;
      && Sent(m.shared.outbox, d) == Sent(n.shared.outbox, d) + (if d in n.shared.clients then [Broadcast(msg)] else [])
      && m == n.(shared := n.shared.(outbox := m.shared.outbox), routing := n.routing.(events := n.routing.events[1..]))
  {
    hide Enabled, Apply, IsRun, Final;
  }
}
