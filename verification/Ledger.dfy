/** Every request with an id is in one place at a time, whatever the interleaving. */
module Ledger {
  import opened Wrappers
  import opened Json
  import opened Shared
  import opened Protocol
  import Ids

  // ----- counting tickets

  function Count<T>(xs: seq<T>, tag: T -> Option<nat>, t: nat): nat {
    if xs == [] then 0
    else Count(xs[..|xs| - 1], tag, t) + if tag(xs[|xs| - 1]) == Some(t) then 1 else 0
  }

  lemma CountSingleton<T>(x: T, tag: T -> Option<nat>, t: nat)
    ensures Count([x], tag, t) == if tag(x) == Some(t) then 1 else 0
  {
    assert [x][..0] == [];
  }

  lemma CountSnoc<T>(xs: seq<T>, x: T, tag: T -> Option<nat>, t: nat)
    ensures Count(xs + [x], tag, t) == Count(xs, tag, t) + if tag(x) == Some(t) then 1 else 0
  {
    assert (xs + [x])[..|xs|] == xs;
  }

  lemma {:induction false} CountConcat<T>(xs: seq<T>, ys: seq<T>, tag: T -> Option<nat>, t: nat)
    ensures Count(xs + ys, tag, t) == Count(xs, tag, t) + Count(ys, tag, t)
  {
    if ys == [] {
      assert xs + ys == xs;
    } else {
      CountConcat(xs, ys[..|ys| - 1], tag, t);
      assert (xs + ys)[..|xs + ys| - 1] == xs + ys[..|ys| - 1];
    }
  }

  lemma CountHead<T>(xs: seq<T>, tag: T -> Option<nat>, t: nat)
    requires xs != []
    ensures Count(xs, tag, t) == Count(xs[1..], tag, t) + if tag(xs[0]) == Some(t) then 1 else 0
  {
    assert xs == [xs[0]] + xs[1..];
    CountConcat([xs[0]], xs[1..], tag, t);
    CountSingleton(xs[0], tag, t);
  }

  lemma {:induction false} CountZero<T>(xs: seq<T>, tag: T -> Option<nat>, t: nat)
    ensures Count(xs, tag, t) == 0 <==> forall i :: 0 <= i < |xs| ==> tag(xs[i]) != Some(t)
  {
    if xs != [] {
      CountZero(xs[..|xs| - 1], tag, t);
      var rest := xs[..|xs| - 1];
      assert forall i :: 0 <= i < |rest| ==> rest[i] == xs[i];
    }
  }

  function RequestTag(r: Request): Option<nat> { Some(r.ticket) }
  function OwedTag(o: Owed): Option<nat> { Some(o.ticket) }
  function DeliveryTag(d: Delivery): Option<nat> {
    if d.Reply? || d.Failure? then Some(d.ticket) else None
  }

  // ----- the places a request can be

  function HeldBy(readers: map<nat, Reader>, c: nat): seq<Request> {
    if c in readers then Held(readers[c]) else []
  }

  function InReader(readers: map<nat, Reader>, c: nat, t: nat): nat { Count(HeldBy(readers, c), RequestTag, t) }
  function InBuffer(handshakes: map<nat, Handshake>, c: nat, t: nat): nat {
    Count(BufferedFor(handshakes, c), RequestTag, t)
  }
  function InChannel(outbox: map<nat, seq<Delivery>>, c: nat, t: nat): nat { Count(Sent(outbox, c), DeliveryTag, t) }
  function InWaiting(waiting: seq<Owed>, t: nat): nat { Count(waiting, OwedTag, t) }
  function InReaper(reaper: seq<Owed>, t: nat): nat { Count(reaper, OwedTag, t) }
  function InRouter(router: Router, t: nat): nat {
    if !router.Listening? && router.entry.ticket == t then 1 else 0
  }
  function PendingIds(pending: map<string, Pending>, t: nat): set<string> {
    set g | g in pending && pending[g].ticket == t
  }

  /** All copies of request `t` of client `c` anywhere in the daemon, answers included. */
  function Copies(s: System, c: nat, t: nat): nat {
    InReader(s.readers, c, t) + InBuffer(s.shared.handshakes, c, t) + InChannel(s.shared.outbox, c, t) +
    InWaiting(s.shared.waiting, t) + InReaper(s.reaping.hand, t) + InRouter(s.routing.router, t) +
    |PendingIds(s.shared.pending, t)|
  }

  // ----- the invariant

  predicate At(location: seq<Place>, t: nat, p: Place) {
    t < |location| && location[t] == p
  }

  predicate Owned(requests: seq<Arrival>, location: seq<Place>, c: nat, t: nat, p: Place) {
    At(location, t, p) && From(requests, t, c)
  }

  /** Request `t` came from client `c`. */
  predicate From(requests: seq<Arrival>, t: nat, c: nat) {
    t < |requests| && requests[t].client == c
  }

  function Ind(b: bool): nat { if b then 1 else 0 }

  ghost predicate Registered(st: State, readers: map<nat, Reader>) {
    && 1 <= st.nextClient
    && (forall c :: c in readers <==> 1 <= c < st.nextClient)
    && st.clients == st.handshakes.Keys
    && st.clients <= readers.Keys
    && st.outbox.Keys == readers.Keys
  }

  ghost predicate ReaderLedger(readers: map<nat, Reader>, requests: seq<Arrival>, location: seq<Place>) {
    forall c: nat, t: nat {:trigger InReader(readers, c, t)} ::
      InReader(readers, c, t) == Ind(Owned(requests, location, c, t, AtReader))
  }

  ghost predicate BufferLedger(handshakes: map<nat, Handshake>, requests: seq<Arrival>, location: seq<Place>) {
    forall c: nat, t: nat {:trigger InBuffer(handshakes, c, t)} ::
      InBuffer(handshakes, c, t) == Ind(Owned(requests, location, c, t, AtBuffer))
  }

  ghost predicate ChannelLedger(outbox: map<nat, seq<Delivery>>, requests: seq<Arrival>, location: seq<Place>) {
    forall c: nat, t: nat {:trigger InChannel(outbox, c, t)} ::
      InChannel(outbox, c, t) == Ind(Owned(requests, location, c, t, AtChannel))
  }

  ghost predicate WaitingLedger(waiting: seq<Owed>, requests: seq<Arrival>, location: seq<Place>) {
    && (forall t: nat {:trigger InWaiting(waiting, t)} :: InWaiting(waiting, t) == Ind(At(location, t, AtWaiting)))
    && (forall i :: 0 <= i < |waiting| ==> From(requests, waiting[i].ticket, waiting[i].client))
  }

  ghost predicate ReaperLedger(reaper: seq<Owed>, requests: seq<Arrival>, location: seq<Place>) {
    && (forall t: nat {:trigger InReaper(reaper, t)} :: InReaper(reaper, t) == Ind(At(location, t, AtReaper)))
    && (forall i :: 0 <= i < |reaper| ==> From(requests, reaper[i].ticket, reaper[i].client))
  }

  ghost predicate PendingLedger(
    pending: map<string, Pending>, nextGlobal: nat, requests: seq<Arrival>, location: seq<Place>)
  {
    && (forall g :: g in pending ==>
          && At(location, pending[g].ticket, AtPending(g))
          && From(requests, pending[g].ticket, pending[g].client)
          && Ids.IssuedBelow(g, nextGlobal))
    && (forall t: nat :: t < |location| && location[t].AtPending? ==>
          location[t].id in pending && pending[location[t].id].ticket == t)
  }

  ghost predicate RouterLedger(router: Router, requests: seq<Arrival>, location: seq<Place>) {
    && (forall t: nat {:trigger InRouter(router, t)} :: InRouter(router, t) == Ind(At(location, t, AtRouter)))
    && (!router.Listening? ==> From(requests, router.entry.ticket, router.entry.client))
  }

  ghost predicate LostLedger(clients: set<nat>, requests: seq<Arrival>, location: seq<Place>) {
    forall t :: 0 <= t < |location| && t < |requests| && location[t] == Lost ==> requests[t].client !in clients
  }

  ghost predicate LedgerInv(s: System) {
    && |s.book.location| == |s.book.requests|
    && Registered(s.shared, s.readers)
    && (forall t :: 0 <= t < |s.book.requests| ==> s.book.requests[t].client in s.readers)
    && ReaderLedger(s.readers, s.book.requests, s.book.location)
    && BufferLedger(s.shared.handshakes, s.book.requests, s.book.location)
    && ChannelLedger(s.shared.outbox, s.book.requests, s.book.location)
    && WaitingLedger(s.shared.waiting, s.book.requests, s.book.location)
    && ReaperLedger(s.reaping.hand, s.book.requests, s.book.location)
    && PendingLedger(s.shared.pending, s.shared.nextGlobal, s.book.requests, s.book.location)
    && RouterLedger(s.routing.router, s.book.requests, s.book.location)
    && LostLedger(s.shared.clients, s.book.requests, s.book.location)
  }

  // ----- what every step keeps

  predicate IsQuiet(a: ClientAction) {
    a.ClaimInitialized? || a.Announce? || a.ForwardNotice? || a.CheckHandshake? || a.FlushDone? || a.Enqueue? ||
    a.EnqueueClosed? || a.NoticeTimeout? || a.HangUp? || a.DecodeError?
  }

  lemma SameHoldings(readers: map<nat, Reader>, c: nat, r: Reader, requests: seq<Arrival>, location: seq<Place>)
    requires ReaderLedger(readers, requests, location)
    requires c in readers && Held(r) == Held(readers[c])
    ensures ReaderLedger(readers[c := r], requests, location)
  {
    var after := readers[c := r];
    assert forall d: nat :: HeldBy(after, d) == HeldBy(readers, d);
    assert forall d: nat, t: nat :: InReader(after, d, t) == InReader(readers, d, t);
  }

  lemma QuietKeepsLedger(s: System, c: nat, a: ClientAction)
    requires LedgerInv(s) && ClientEnabled(s, c, a) && IsQuiet(a)
    ensures LedgerInv(ClientStep(s, c, a))
  {
    SameHoldings(s.readers, c, ClientStep(s, c, a).readers[c], s.book.requests, s.book.location);
  }

  /** The reader hands its first held request on to another place. */
  lemma ReaderGivesFirst(
    readers: map<nat, Reader>, c: nat, r: Reader, p: Place, requests: seq<Arrival>, location: seq<Place>)
    requires ReaderLedger(readers, requests, location)
    requires c in readers && Held(readers[c]) != [] && Held(r) == Held(readers[c])[1..] && p != AtReader
    ensures var t := Held(readers[c])[0].ticket;
            && Owned(requests, location, c, t, AtReader)
            && ReaderLedger(readers[c := r], requests, location[t := p])
  {
    var held, after := Held(readers[c]), readers[c := r];
    var ticket := held[0].ticket;
    CountHead(held, RequestTag, ticket);
    assert InReader(readers, c, ticket) >= 1;
    forall d: nat, t: nat
      ensures InReader(after, d, t) == Ind(Owned(requests, location[ticket := p], d, t, AtReader))
    {
      assert InReader(readers, d, t) == Ind(Owned(requests, location, d, t, AtReader));
      if d == c { CountHead(held, RequestTag, t); }
      else { assert HeldBy(after, d) == HeldBy(readers, d); }
    }
  }

  /** The channel of the request's client takes an answer to it. */
  lemma ChannelTakes(
    outbox: map<nat, seq<Delivery>>, c: nat, d: Delivery, t: nat, requests: seq<Arrival>, location: seq<Place>)
    requires ChannelLedger(outbox, requests, location)
    requires DeliveryTag(d) == Some(t) && t < |location| && From(requests, t, c) && location[t] != AtChannel
    ensures ChannelLedger(outbox[c := Sent(outbox, c) + [d]], requests, location[t := AtChannel])
  {
    var after := outbox[c := Sent(outbox, c) + [d]];
    forall e: nat, u: nat
      ensures InChannel(after, e, u) == Ind(Owned(requests, location[t := AtChannel], e, u, AtChannel))
    {
      assert InChannel(outbox, e, u) == Ind(Owned(requests, location, e, u, AtChannel));
      CountSnoc(Sent(outbox, c), d, DeliveryTag, u);
      assert e != c ==> Sent(after, e) == Sent(outbox, e);
    }
  }

  lemma ChannelTakesUntagged(
    outbox: map<nat, seq<Delivery>>, c: nat, d: Delivery, requests: seq<Arrival>, location: seq<Place>)
    requires ChannelLedger(outbox, requests, location) && DeliveryTag(d) == None
    ensures ChannelLedger(outbox[c := Sent(outbox, c) + [d]], requests, location)
  {
    var after := outbox[c := Sent(outbox, c) + [d]];
    forall e: nat, u: nat ensures InChannel(after, e, u) == InChannel(outbox, e, u) {
      CountSnoc(Sent(outbox, c), d, DeliveryTag, u);
      assert e != c ==> Sent(after, e) == Sent(outbox, e);
    }
  }

  /** Whether the ledger before and after agree on who is in this place. */
  ghost predicate Agree(before: seq<Place>, after: seq<Place>, p: Place) {
    |before| == |after| && forall t :: 0 <= t < |after| ==> (before[t] == p <==> after[t] == p)
  }

  lemma ReadersSpared(readers: map<nat, Reader>, requests: seq<Arrival>, before: seq<Place>, after: seq<Place>)
    requires ReaderLedger(readers, requests, before) && Agree(before, after, AtReader)
    ensures ReaderLedger(readers, requests, after)
  {
    assert forall c: nat, t: nat :: Owned(requests, after, c, t, AtReader) == Owned(requests, before, c, t, AtReader);
  }

  lemma BuffersSpared(handshakes: map<nat, Handshake>, requests: seq<Arrival>, before: seq<Place>, after: seq<Place>)
    requires BufferLedger(handshakes, requests, before) && Agree(before, after, AtBuffer)
    ensures BufferLedger(handshakes, requests, after)
  {
    assert forall c: nat, t: nat :: Owned(requests, after, c, t, AtBuffer) == Owned(requests, before, c, t, AtBuffer);
  }

  lemma ChannelsSpared(outbox: map<nat, seq<Delivery>>, requests: seq<Arrival>, before: seq<Place>, after: seq<Place>)
    requires ChannelLedger(outbox, requests, before) && Agree(before, after, AtChannel)
    ensures ChannelLedger(outbox, requests, after)
  {
    assert forall c: nat, t: nat :: Owned(requests, after, c, t, AtChannel) == Owned(requests, before, c, t, AtChannel);
  }

  lemma TablesSpared(
    waiting: seq<Owed>, reaper: seq<Owed>, router: Router, requests: seq<Arrival>,
    before: seq<Place>, after: seq<Place>)
    ensures WaitingLedger(waiting, requests, before) && Agree(before, after, AtWaiting) ==>
            WaitingLedger(waiting, requests, after)
    ensures ReaperLedger(reaper, requests, before) && Agree(before, after, AtReaper) ==>
            ReaperLedger(reaper, requests, after)
    ensures RouterLedger(router, requests, before) && Agree(before, after, AtRouter) ==>
            RouterLedger(router, requests, after)
  {
    assert forall t: nat, p: Place :: Agree(before, after, p) ==> At(after, t, p) == At(before, t, p);
  }

  /** A request that leaves for a place of another kind does not disturb the other ledgers. */
  lemma ElsewhereUndisturbed(s: System, t: nat, p: Place)
    requires LedgerInv(s) && t < |s.book.location|
    ensures var from, location := s.book.location[t], s.book.location[t := p];
      && (from != AtReader && p != AtReader ==> ReaderLedger(s.readers, s.book.requests, location))
      && (from != AtBuffer && p != AtBuffer ==> BufferLedger(s.shared.handshakes, s.book.requests, location))
      && (from != AtChannel && p != AtChannel ==> ChannelLedger(s.shared.outbox, s.book.requests, location))
      && (from != AtWaiting && p != AtWaiting ==> WaitingLedger(s.shared.waiting, s.book.requests, location))
      && (from != AtReaper && p != AtReaper ==> ReaperLedger(s.reaping.hand, s.book.requests, location))
      && (!from.AtPending? && !p.AtPending? ==>
            PendingLedger(s.shared.pending, s.shared.nextGlobal, s.book.requests, location))
      && (from != AtRouter && p != AtRouter ==> RouterLedger(s.routing.router, s.book.requests, location))
      && (p != Lost ==> LostLedger(s.shared.clients, s.book.requests, location))
  {
    var location := s.book.location[t := p];
    assert forall c: nat, u: nat, q: Place :: s.book.location[t] != q && p != q ==>
      Owned(s.book.requests, location, c, u, q) == Owned(s.book.requests, s.book.location, c, u, q);
  }

  // ----- bulk answers

  /** The part of a batch that goes to one client, in order. */
  function For(items: seq<(nat, Delivery)>, c: nat): seq<Delivery> {
    if items == [] then []
    else
      var last := items[|items| - 1];
      if last.0 == c then For(items[..|items| - 1], c) + [last.1] else For(items[..|items| - 1], c)
  }

  lemma {:induction false} ForCons(items: seq<(nat, Delivery)>, c: nat)
    requires items != []
    ensures For(items, c) == (if items[0].0 == c then [items[0].1] else []) + For(items[1..], c)
  {
    if |items| > 1 {
      var init := items[..|items| - 1];
      ForCons(init, c);
      assert init[1..] == items[1..][..|items| - 2];
    }
  }

  /** A batch changes nothing but the channels of registered clients, and gives each of
      them exactly its own messages, in order. */
  lemma PushDelivers(st: State, d: nat, delivery: Delivery, c: nat)
    requires st.clients <= st.outbox.Keys
    ensures var n := Push(st, d, delivery);
      && n == st.(outbox := n.outbox) && n.outbox.Keys == st.outbox.Keys
      && Sent(n.outbox, c) == Sent(st.outbox, c) + if d == c && c in st.clients then [delivery] else []
  {
  }

  lemma {:induction false} PushAllDelivers(st: State, items: seq<(nat, Delivery)>, c: nat)
    requires st.clients <= st.outbox.Keys
    ensures PushAll(st, items) == st.(outbox := PushAll(st, items).outbox)
    ensures PushAll(st, items).outbox.Keys == st.outbox.Keys
    ensures Sent(PushAll(st, items).outbox, c) ==
            Sent(st.outbox, c) + (if c in st.clients then For(items, c) else [])
    decreases |items|
  {
    if items != [] {
      hide Push, Sent, For;
      var next := Push(st, items[0].0, items[0].1);
      PushDelivers(st, items[0].0, items[0].1, c);
      PushAllDelivers(next, items[1..], c);
      ForCons(items, c);
    }
  }

  lemma {:induction false} CountFor(items: seq<(nat, Delivery)>, owed: seq<Owed>, c: nat, t: nat, mine: bool)
    requires |items| == |owed|
    requires forall i :: 0 <= i < |owed| ==>
      items[i].0 == owed[i].client && DeliveryTag(items[i].1) == Some(owed[i].ticket)
    requires forall i :: 0 <= i < |owed| && owed[i].ticket == t ==> (owed[i].client == c <==> mine)
    ensures Count(For(items, c), DeliveryTag, t) == if mine then Count(owed, OwedTag, t) else 0
  {
    if items != [] {
      var n := |items| - 1;
      CountFor(items[..n], owed[..n], c, t, mine);
      if items[n].0 == c { CountSnoc(For(items[..n], c), items[n].1, DeliveryTag, t); }
    }
  }

  /** Answering everything in a list moves each of its requests into its client's channel,
      or loses it when that client has gone. */
  lemma BatchSettles(
    st: State, items: seq<(nat, Delivery)>, owed: seq<Owed>, requests: seq<Arrival>,
    before: seq<Place>, after: seq<Place>)
    requires st.clients <= st.outbox.Keys
    requires ChannelLedger(st.outbox, requests, before)
    requires |items| == |owed| && |before| == |after| == |requests|
    requires forall i :: 0 <= i < |owed| ==>
      items[i].0 == owed[i].client && DeliveryTag(items[i].1) == Some(owed[i].ticket)
    requires forall i :: 0 <= i < |owed| ==> From(requests, owed[i].ticket, owed[i].client)
    requires forall t: nat :: t < |after| ==>
      Count(owed, OwedTag, t) <= 1 &&
      (Count(owed, OwedTag, t) == 1 ==> before[t] != AtChannel && after[t] == Answered(st, ClientOf(requests, t))) &&
      (Count(owed, OwedTag, t) == 0 ==> (before[t] == AtChannel <==> after[t] == AtChannel))
    ensures ChannelLedger(PushAll(st, items).outbox, requests, after)
  {
    forall c: nat, t: nat
      ensures InChannel(PushAll(st, items).outbox, c, t) == Ind(Owned(requests, after, c, t, AtChannel))
    {
      PushAllDelivers(st, items, c);
      CountFor(items, owed, c, t, From(requests, t, c));
      if c in st.clients { CountConcat(Sent(st.outbox, c), For(items, c), DeliveryTag, t); }
      CountZero(owed, OwedTag, t);
      assert InChannel(st.outbox, c, t) == Ind(Owned(requests, before, c, t, AtChannel));
    }
  }

  // ----- steps of a client

  lemma ReaderAsks(
    readers: map<nat, Reader>, c: nat, msg: Value, tooLarge: bool, requests: seq<Arrival>, location: seq<Place>)
    requires ReaderLedger(readers, requests, location) && |location| == |requests|
    requires c in readers && Held(readers[c]) == []
    ensures ReaderLedger(readers[c := Asked(Request(|requests|, msg), tooLarge)],
                         requests + [Arrival(c, msg, tooLarge)], location + [AtReader])
  {
    var newest := |requests|;
    var after := readers[c := Asked(Request(newest, msg), tooLarge)];
    forall d: nat, t: nat
      ensures InReader(after, d, t) ==
              Ind(Owned(requests + [Arrival(c, msg, tooLarge)], location + [AtReader], d, t, AtReader))
    {
      assert InReader(readers, d, t) == Ind(Owned(requests, location, d, t, AtReader));
      if d == c { CountSingleton(Request(newest, msg), RequestTag, t); }
      else { assert HeldBy(after, d) == HeldBy(readers, d); }
    }
  }

  lemma ChannelsSeeArrival(outbox: map<nat, seq<Delivery>>, handshakes: map<nat, Handshake>, requests: seq<Arrival>,
                           location: seq<Place>, a: Arrival)
    requires |requests| == |location|
    ensures ChannelLedger(outbox, requests, location) ==> ChannelLedger(outbox, requests + [a], location + [AtReader])
    ensures BufferLedger(handshakes, requests, location) ==>
            BufferLedger(handshakes, requests + [a], location + [AtReader])
  {
    assert forall d: nat, t: nat, p: Place :: p != AtReader ==>
      Owned(requests + [a], location + [AtReader], d, t, p) == Owned(requests, location, d, t, p);
  }

  lemma TablesSeeArrival(
    waiting: seq<Owed>, reaper: seq<Owed>, router: Router, requests: seq<Arrival>, location: seq<Place>, a: Arrival)
    requires |requests| == |location|
    requires WaitingLedger(waiting, requests, location) && ReaperLedger(reaper, requests, location) &&
             RouterLedger(router, requests, location)
    ensures WaitingLedger(waiting, requests + [a], location + [AtReader])
    ensures ReaperLedger(reaper, requests + [a], location + [AtReader])
    ensures RouterLedger(router, requests + [a], location + [AtReader])
  {
    assert forall t: nat, p: Place :: p != AtReader ==> At(location + [AtReader], t, p) == At(location, t, p);
  }

  lemma PendingSeesArrival(
    pending: map<string, Pending>, nextGlobal: nat, clients: set<nat>, requests: seq<Arrival>, location: seq<Place>,
    a: Arrival)
    requires |requests| == |location|
    requires PendingLedger(pending, nextGlobal, requests, location) && LostLedger(clients, requests, location)
    ensures PendingLedger(pending, nextGlobal, requests + [a], location + [AtReader])
    ensures LostLedger(clients, requests + [a], location + [AtReader])
  {
    hide Ids.IssuedBelow;
  }

  lemma ReceiveKeepsLedger(s: System, c: nat, msg: Value, tooLarge: bool)
    requires LedgerInv(s) && ClientEnabled(s, c, Receive(msg, tooLarge))
    ensures LedgerInv(ReceiveStep(s, c, msg, tooLarge))
  {
    hide ReaderLedger, ChannelLedger, BufferLedger, WaitingLedger, ReaperLedger, RouterLedger, PendingLedger,
         LostLedger;
    var a, requests, location := Arrival(c, msg, tooLarge), s.book.requests, s.book.location;
    if IsRequest(msg, tooLarge) {
      ReaderAsks(s.readers, c, msg, tooLarge, requests, location);
      ChannelsSeeArrival(s.shared.outbox, s.shared.handshakes, requests, location, a);
      TablesSeeArrival(s.shared.waiting, s.reaping.hand, s.routing.router, requests, location, a);
      PendingSeesArrival(s.shared.pending, s.shared.nextGlobal, s.shared.clients, requests, location, a);
    } else {
      SameHoldings(s.readers, c, Noted(msg, tooLarge), requests, location);
    }
  }

  /** The reader's first held request, which is certainly one of its own. */
  lemma HeadIsOwn(s: System, c: nat)
    requires LedgerInv(s) && c in s.readers && Held(s.readers[c]) != []
    ensures Owned(s.book.requests, s.book.location, c, Held(s.readers[c])[0].ticket, AtReader)
  {
    var held := Held(s.readers[c]);
    CountHead(held, RequestTag, held[0].ticket);
    assert InReader(s.readers, c, held[0].ticket) >= 1;
  }

  /** The reader answers its first held request itself. */
  lemma AnswerKeepsLedger(s: System, c: nat, r: Reader, d: Delivery, b: Book)
    requires LedgerInv(s) && c in s.readers && Held(s.readers[c]) != []
    requires Held(r) == Held(s.readers[c])[1..]
    requires var t := Held(s.readers[c])[0].ticket;
      && DeliveryTag(d) == Some(t)
      && b == Relocate(s.book, t, Answered(s.shared, c)).(turnedAway := b.turnedAway)
    ensures LedgerInv(s.(shared := Push(s.shared, c, d), book := b, readers := s.readers[c := r]))
  {
    HeadIsOwn(s, c);
    var t, p := Held(s.readers[c])[0].ticket, Answered(s.shared, c);
    ReaderGivesFirst(s.readers, c, r, p, s.book.requests, s.book.location);
    ElsewhereUndisturbed(s, t, p);
    if c in s.shared.clients {
      ChannelTakes(s.shared.outbox, c, d, t, s.book.requests, s.book.location);
    }
  }

  lemma RejectKeepsLedger(s: System, c: nat)
    requires LedgerInv(s) && ClientEnabled(s, c, RejectTooLarge)
    ensures LedgerInv(RejectTooLargeStep(s, c))
  {
    match s.readers[c]
    case Asked(req, _) =>
      var d := Failure(req.ticket, ErrorResponse(LocalId(req.body), TOO_LARGE));
      AnswerKeepsLedger(s, c, Idle, d, RejectTooLargeStep(s, c).book);
    case Noted(msg, _) =>
      SameHoldings(s.readers, c, Idle, s.book.requests, s.book.location);
      ChannelTakesUntagged(s.shared.outbox, c, Notice(ErrorResponse(LocalId(msg), TOO_LARGE)), s.book.requests,
                           s.book.location);
  }

  lemma ReportTimeoutKeepsLedger(s: System, c: nat)
    requires LedgerInv(s) && ClientEnabled(s, c, ReportTimeout)
    ensures LedgerInv(ClientStep(s, c, ReportTimeout))
  {
    SameHoldings(s.readers, c, Leaving, s.book.requests, s.book.location);
    ChannelTakesUntagged(s.shared.outbox, c, Notice(ErrorResponse(Null, HANDSHAKE_LATE)), s.book.requests,
                         s.book.location);
  }

  lemma MarkingKeepsLedger(s: System, c: nat)
    requires LedgerInv(s)
    ensures LedgerInv(s.(shared := MarkInitializePending(s.shared, c)))
  {
    var after := MarkInitializePending(s.shared, c).handshakes;
    assert forall d: nat :: BufferedFor(after, d) == BufferedFor(s.shared.handshakes, d);
    assert forall d: nat, t: nat :: InBuffer(after, d, t) == InBuffer(s.shared.handshakes, d, t);
  }

  lemma IssuedOneMore(pending: map<string, Pending>, limit: nat)
    requires forall g :: g in pending ==> Ids.IssuedBelow(g, limit)
    ensures forall g :: g in pending ==> Ids.IssuedBelow(g, limit + 1)
  {
    forall g | g in pending ensures Ids.IssuedBelow(g, limit + 1) { Ids.IssuedMonotone(g, limit, limit + 1); }
  }

  lemma FreshIsNotPending(pending: map<string, Pending>, c: nat, limit: nat)
    requires forall g :: g in pending ==> Ids.IssuedBelow(g, limit)
    ensures Ids.GlobalId(c, limit) !in pending && Ids.IssuedBelow(Ids.GlobalId(c, limit), limit + 1)
  {
    Ids.NextIdIsFresh(c, limit);
  }

  lemma FiledTable(
    pending: map<string, Pending>, limit: nat, requests: seq<Arrival>, location: seq<Place>, c: nat, entry: Pending)
    requires PendingLedger(pending, limit, requests, location)
    requires entry.client == c && From(requests, entry.ticket, c) && At(location, entry.ticket, AtReader)
    ensures var id := Ids.GlobalId(c, limit);
      && id !in pending
      && PendingLedger(pending[id := entry], limit + 1, requests, location[entry.ticket := AtPending(id)])
  {
    hide Ids.IssuedBelow, Ids.GlobalId;
    FreshIsNotPending(pending, c, limit);
    IssuedOneMore(pending, limit);
  }

  /** The reader files its first held request under a fresh global id. */
  lemma FilingKeepsLedger(s: System, c: nat, isInitialize: bool)
    requires LedgerInv(s) && c in s.readers && Held(s.readers[c]) != []
    ensures var req := Held(s.readers[c])[0];
      var id := Ids.GlobalId(c, s.shared.nextGlobal);
      && id !in s.shared.pending
      && LedgerInv(s.(shared := File(s.shared, c, req, isInitialize, s.now),
                      book := Relocate(s.book, req.ticket, AtPending(id)),
                      readers := s.readers[c := Sending(req, id, Held(s.readers[c])[1..])]))
  {
    hide ReaderLedger, ChannelLedger, BufferLedger, WaitingLedger, ReaperLedger, RouterLedger, PendingLedger,
         LostLedger, Ids.GlobalId;
    HeadIsOwn(s, c);
    var req, id := Held(s.readers[c])[0], Ids.GlobalId(c, s.shared.nextGlobal);
    var entry := Pending(c, LocalId(req.body), isInitialize, s.now, req.ticket);
    ReaderGivesFirst(s.readers, c, Sending(req, id, Held(s.readers[c])[1..]), AtPending(id), s.book.requests,
                     s.book.location);
    ElsewhereUndisturbed(s, req.ticket, AtPending(id));
    FiledTable(s.shared.pending, s.shared.nextGlobal, s.book.requests, s.book.location, c, entry);
  }

  /** The reader's first held request joins those waiting for somebody else's answer. */
  lemma QueueingKeepsLedger(s: System, c: nat)
    requires LedgerInv(s) && c in s.readers && Held(s.readers[c]) != []
    requires |Held(s.readers[c])| == 1
    ensures var req := Held(s.readers[c])[0];
      LedgerInv(s.(shared := s.shared.(waiting := s.shared.waiting + [Owed(c, LocalId(req.body), req.ticket)]),
                   book := Relocate(s.book, req.ticket, AtWaiting),
                   readers := s.readers[c := Idle]))
  {
    HeadIsOwn(s, c);
    var req := Held(s.readers[c])[0];
    var location, waiting := s.book.location[req.ticket := AtWaiting], s.shared.waiting;
    var owed := Owed(c, LocalId(req.body), req.ticket);
    ReaderGivesFirst(s.readers, c, Idle, AtWaiting, s.book.requests, s.book.location);
    ElsewhereUndisturbed(s, req.ticket, AtWaiting);
    forall t: nat ensures InWaiting(waiting + [owed], t) == Ind(At(location, t, AtWaiting)) {
      CountSnoc(waiting, owed, OwedTag, t);
      assert InWaiting(waiting, t) == Ind(At(s.book.location, t, AtWaiting));
    }
  }

  lemma InitializeAnsweredKeepsLedger(s: System, c: nat)
    requires LedgerInv(s) && ClientEnabled(s, c, InitializeRequest)
    requires s.shared.cached.Some? || (!s.shared.initializing && Overloaded(s.shared))
    ensures LedgerInv(InitializeStep(s, c))
  {
    var req := s.readers[c].req;
    MarkingKeepsLedger(s, c);
    var m := s.(shared := MarkInitializePending(s.shared, c));
    var d := if s.shared.cached.Some? then Reply(req.ticket, SetId(s.shared.cached.value, LocalId(req.body)))
             else Failure(req.ticket, ErrorResponse(LocalId(req.body), OVERLOADED));
    AnswerKeepsLedger(m, c, Idle, d, InitializeStep(s, c).book);
  }

  lemma InitializeWaitsKeepsLedger(s: System, c: nat)
    requires LedgerInv(s) && ClientEnabled(s, c, InitializeRequest)
    requires s.shared.cached.None? && s.shared.initializing
    ensures LedgerInv(InitializeStep(s, c))
  {
    MarkingKeepsLedger(s, c);
    QueueingKeepsLedger(s.(shared := MarkInitializePending(s.shared, c)), c);
  }

  lemma InitializeForwardsShape(s: System, c: nat, m: System)
    requires ClientEnabled(s, c, InitializeRequest) && InitializeForwards(s.shared)
    requires m == s.(shared := MarkInitializePending(s.shared, c))
    ensures var req, id := s.readers[c].req, Ids.GlobalId(c, m.shared.nextGlobal);
      InitializeStep(s, c) ==
      m.(shared := File(m.shared, c, req, true, m.now), book := Relocate(m.book, req.ticket, AtPending(id)),
         readers := m.readers[c := Sending(req, id, Held(m.readers[c])[1..])])
  {
    assert Held(m.readers[c])[1..] == [];
  }

  lemma InitializeForwardsKeepsLedger(s: System, c: nat)
    requires LedgerInv(s) && ClientEnabled(s, c, InitializeRequest)
    requires InitializeForwards(s.shared)
    ensures LedgerInv(InitializeStep(s, c))
  {
    var m := s.(shared := MarkInitializePending(s.shared, c));
    MarkingKeepsLedger(s, c);
    FilingKeepsLedger(m, c, true);
    InitializeForwardsShape(s, c, m);
  }

  lemma ForwardKeepsLedger(s: System, c: nat)
    requires LedgerInv(s) && ClientEnabled(s, c, ForwardNext)
    ensures LedgerInv(ForwardStep(s, c))
  {
    hide LedgerInv, Count, PushAll;
    var req := s.readers[c].todo[0];
    if Overloaded(s.shared) {
      AnswerKeepsLedger(s, c, Flushing(s.readers[c].todo[1..]),
                        Failure(req.ticket, ErrorResponse(LocalId(req.body), OVERLOADED)), ForwardStep(s, c).book);
    } else {
      FilingKeepsLedger(s, c, false);
    }
  }

  lemma BufferTakes(st: State, c: nat, req: Request, requests: seq<Arrival>, location: seq<Place>)
    requires BufferLedger(st.handshakes, requests, location)
    requires c in st.handshakes && Owned(requests, location, c, req.ticket, AtReader)
    ensures BufferLedger(BufferMessage(st, c, req).handshakes, requests, location[req.ticket := AtBuffer])
  {
    var after := BufferMessage(st, c, req).handshakes;
    forall d: nat, t: nat
      ensures InBuffer(after, d, t) == Ind(Owned(requests, location[req.ticket := AtBuffer], d, t, AtBuffer))
    {
      assert InBuffer(st.handshakes, d, t) == Ind(Owned(requests, location, d, t, AtBuffer));
      CountSnoc(BufferedFor(st.handshakes, c), req, RequestTag, t);
      assert d != c ==> BufferedFor(after, d) == BufferedFor(st.handshakes, d);
    }
  }

  lemma BufferingKeepsLedger(s: System, c: nat)
    requires LedgerInv(s) && ClientEnabled(s, c, BufferRequest)
    ensures LedgerInv(BufferStep(s, c))
  {
    HeadIsOwn(s, c);
    var req := s.readers[c].req;
    var p := if c in s.shared.handshakes then AtBuffer else Lost;
    ReaderGivesFirst(s.readers, c, Idle, p, s.book.requests, s.book.location);
    ElsewhereUndisturbed(s, req.ticket, p);
    if c in s.shared.handshakes { BufferTakes(s.shared, c, req, s.book.requests, s.book.location); }
  }

  lemma ReaderTakesBuffer(
    readers: map<nat, Reader>, st: State, c: nat, requests: seq<Arrival>, before: seq<Place>, after: seq<Place>)
    requires ReaderLedger(readers, requests, before) && BufferLedger(st.handshakes, requests, before)
    requires c in readers && Held(readers[c]) == [] && |before| == |after|
    requires forall t :: 0 <= t < |after| ==>
      after[t] == if before[t].AtBuffer? && ClientOf(requests, t) == c then AtReader else before[t]
    requires |requests| == |before|
    ensures ReaderLedger(readers[c := Flushing(BufferedFor(st.handshakes, c))], requests, after)
    ensures BufferLedger(CompleteHandshake(st, c).handshakes, requests, after)
  {
    var handshakes, took := CompleteHandshake(st, c).handshakes, readers[c := Flushing(BufferedFor(st.handshakes, c))];
    forall d: nat, t: nat
      ensures InBuffer(handshakes, d, t) == Ind(Owned(requests, after, d, t, AtBuffer))
      ensures InReader(took, d, t) == Ind(Owned(requests, after, d, t, AtReader))
    {
      assert InBuffer(st.handshakes, d, t) == Ind(Owned(requests, before, d, t, AtBuffer));
      assert InReader(readers, d, t) == Ind(Owned(requests, before, d, t, AtReader));
      assert d != c ==> HeldBy(took, d) == HeldBy(readers, d);
      assert d != c ==> BufferedFor(handshakes, d) == BufferedFor(st.handshakes, d);
    }
  }

  lemma FinishKeepsLedger(s: System, c: nat)
    requires LedgerInv(s) && ClientEnabled(s, c, FinishHandshake)
    ensures LedgerInv(FinishHandshakeStep(s, c))
  {
    var n := FinishHandshakeStep(s, c);
    var requests, before, after := s.book.requests, s.book.location, n.book.location;
    ReaderTakesBuffer(s.readers, s.shared, c, requests, before, after);
    ChannelsSpared(s.shared.outbox, requests, before, after);
    TablesSpared(s.shared.waiting, s.reaping.hand, s.routing.router, requests, before, after);
  }

  lemma {:induction false} WaitersExceptSources(waiting: seq<Owed>, c: nat, requests: seq<Arrival>)
    requires forall i :: 0 <= i < |waiting| ==> From(requests, waiting[i].ticket, waiting[i].client)
    ensures forall i :: 0 <= i < |WaitersExcept(waiting, c)| ==>
      var w := WaitersExcept(waiting, c)[i]; w.client != c && From(requests, w.ticket, w.client)
  {
    if waiting != [] {
      WaitersExceptSources(waiting[..|waiting| - 1], c, requests);
    }
  }

  lemma {:induction false} WaitersExceptCount(waiting: seq<Owed>, c: nat, requests: seq<Arrival>, t: nat)
    requires forall i :: 0 <= i < |waiting| ==> From(requests, waiting[i].ticket, waiting[i].client)
    ensures Count(WaitersExcept(waiting, c), OwedTag, t) ==
            if From(requests, t, c) then 0 else Count(waiting, OwedTag, t)
  {
    if waiting != [] {
      var init, last := waiting[..|waiting| - 1], waiting[|waiting| - 1];
      WaitersExceptCount(init, c, requests, t);
      assert From(requests, last.ticket, last.client);
      if last.client != c { CountSnoc(WaitersExcept(init, c), last, OwedTag, t); }
    }
  }

  lemma UnregisterClears(st: State, c: nat, requests: seq<Arrival>, before: seq<Place>, after: seq<Place>)
    requires BufferLedger(st.handshakes, requests, before) && WaitingLedger(st.waiting, requests, before)
    requires |requests| == |before| == |after|
    requires forall t :: 0 <= t < |after| ==>
      after[t] == if ClientOf(requests, t) == c && IsHeldFor(before[t]) then Lost else before[t]
    ensures BufferLedger(Unregister(st, c).handshakes, requests, after)
    ensures WaitingLedger(Unregister(st, c).waiting, requests, after)
  {
    var n := Unregister(st, c);
    forall d: nat, t: nat ensures InBuffer(n.handshakes, d, t) == Ind(Owned(requests, after, d, t, AtBuffer)) {
      assert InBuffer(st.handshakes, d, t) == Ind(Owned(requests, before, d, t, AtBuffer));
      assert d != c ==> BufferedFor(n.handshakes, d) == BufferedFor(st.handshakes, d);
    }
    forall t: nat ensures InWaiting(n.waiting, t) == Ind(At(after, t, AtWaiting)) {
      WaitersExceptCount(st.waiting, c, requests, t);
      assert InWaiting(st.waiting, t) == Ind(At(before, t, AtWaiting));
    }
    WaitersExceptSources(st.waiting, c, requests);
  }

  lemma UnregisterUnfiles(st: State, c: nat, requests: seq<Arrival>, before: seq<Place>, after: seq<Place>)
    requires PendingLedger(st.pending, st.nextGlobal, requests, before)
    requires LostLedger(st.clients, requests, before)
    requires |requests| == |before| == |after|
    requires forall t :: 0 <= t < |after| ==>
      after[t] == if ClientOf(requests, t) == c && IsHeldFor(before[t]) then Lost else before[t]
    ensures PendingLedger(Unregister(st, c).pending, st.nextGlobal, requests, after)
    ensures LostLedger(Unregister(st, c).clients, requests, after)
  {
  }

  lemma UnregisterKeepsLedger(s: System, c: nat)
    requires LedgerInv(s) && c in s.readers
    ensures LedgerInv(UnregisterStep(s, c))
  {
    hide ReaderLedger, ChannelLedger, BufferLedger, WaitingLedger, ReaperLedger, RouterLedger, PendingLedger,
         WaitersExcept;
    var n := UnregisterStep(s, c);
    var requests, before, after := s.book.requests, s.book.location, n.book.location;
    UnregisterClears(s.shared, c, requests, before, after);
    UnregisterUnfiles(s.shared, c, requests, before, after);
    ReadersSpared(s.readers, requests, before, after);
    ChannelsSpared(s.shared.outbox, requests, before, after);
    TablesSpared(s.shared.waiting, s.reaping.hand, s.routing.router, requests, before, after);
  }

  lemma LeaveKeepsLedger(s: System, c: nat)
    requires LedgerInv(s) && ClientEnabled(s, c, LeaveClient)
    ensures LedgerInv(LeaveStep(s, c))
  {
    UnregisterKeepsLedger(s, c);
    var n := UnregisterStep(s, c);
    SameHoldings(n.readers, c, Left, n.book.requests, n.book.location);
  }

  lemma ClientStepKeepsLedger(s: System, c: nat, a: ClientAction)
    requires LedgerInv(s) && ClientEnabled(s, c, a)
    ensures LedgerInv(ClientStep(s, c, a))
  {
    hide LedgerInv;
    match a
    case Receive(msg, tooLarge) => ReceiveKeepsLedger(s, c, msg, tooLarge);
    case RejectTooLarge => RejectKeepsLedger(s, c);
    case FinishHandshake => FinishKeepsLedger(s, c);
    case InitializeRequest =>
      if InitializeForwards(s.shared) { InitializeForwardsKeepsLedger(s, c); }
      else if s.shared.cached.None? && s.shared.initializing { InitializeWaitsKeepsLedger(s, c); }
      else { InitializeAnsweredKeepsLedger(s, c); }
    case BufferRequest => BufferingKeepsLedger(s, c);
    case ForwardNext => ForwardKeepsLedger(s, c);
    case ReportTimeout => ReportTimeoutKeepsLedger(s, c);
    case LeaveClient => LeaveKeepsLedger(s, c);
    case WriterGone => UnregisterKeepsLedger(s, c);
    case _ => QuietKeepsLedger(s, c, a);
  }

  // ----- steps of the router, the reaper and the rest

  lemma ConnectKeepsLedger(s: System)
    requires LedgerInv(s)
    ensures LedgerInv(Apply(s, Connect))
  {
    var n, c := Apply(s, Connect), s.shared.nextClient;
    forall d: nat, t: nat
      ensures InReader(n.readers, d, t) == InReader(s.readers, d, t)
      ensures InBuffer(n.shared.handshakes, d, t) == InBuffer(s.shared.handshakes, d, t)
      ensures InChannel(n.shared.outbox, d, t) == InChannel(s.shared.outbox, d, t)
    {
      assert HeldBy(n.readers, d) == HeldBy(s.readers, d);
      assert BufferedFor(n.shared.handshakes, d) == BufferedFor(s.shared.handshakes, d);
      assert Sent(n.shared.outbox, d) == Sent(s.shared.outbox, d);
    }
  }

  lemma BroadcastKeepsLedger(s: System, msg: Value)
    requires LedgerInv(s)
    ensures LedgerInv(s.(shared := BroadcastAll(s.shared, msg)))
  {
    var after := BroadcastAll(s.shared, msg).outbox;
    forall c: nat, t: nat ensures InChannel(after, c, t) == InChannel(s.shared.outbox, c, t) {
      CountSnoc(Sent(s.shared.outbox, c), Broadcast(msg), DeliveryTag, t);
    }
  }

  lemma MatchKeepsLedger(s: System, id: string, router: Router)
    requires LedgerInv(s) && s.routing.router.Listening? && id in s.shared.pending
    requires !router.Listening? && router.entry == s.shared.pending[id]
    ensures LedgerInv(s.(shared := TakePending(s.shared, id), routing := s.routing.(router := router),
                         book := Relocate(s.book, s.shared.pending[id].ticket, AtRouter)))
  {
    var ticket := s.shared.pending[id].ticket;
    ElsewhereUndisturbed(s, ticket, AtRouter);
    forall t: nat ensures InRouter(router, t) == Ind(At(s.book.location[ticket := AtRouter], t, AtRouter)) {
      assert InRouter(s.routing.router, t) == Ind(At(s.book.location, t, AtRouter));
    }
  }

  lemma RouteKeepsLedger(s: System)
    requires LedgerInv(s) && RouterEnabled(s, Route)
    ensures LedgerInv(RouteStep(s))
  {
    var g, msg := s.routing.events[0].generation, s.routing.events[0].msg;
    var rest := s.(routing := s.routing.(events := s.routing.events[1..]));
    if IsBroadcast(msg) {
      BroadcastKeepsLedger(rest, msg);
    } else if RoutingKey(msg).Some? && RoutingKey(msg).value in s.shared.pending {
      var id := RoutingKey(msg).value;
      MatchKeepsLedger(rest, id, Matched(g, msg, s.shared.pending[id], false));
    }
  }

  /** The router lets go of the request it has in hand. */
  lemma RouterLetsGo(s: System, p: Place)
    requires LedgerInv(s) && !s.routing.router.Listening? && p != AtRouter
    ensures var t := s.routing.router.entry.ticket;
      && Owned(s.book.requests, s.book.location, s.routing.router.entry.client, t, AtRouter)
      && RouterLedger(Listening, s.book.requests, s.book.location[t := p])
  {
    var ticket := s.routing.router.entry.ticket;
    assert InRouter(s.routing.router, ticket) == 1;
    forall t: nat ensures InRouter(Listening, t) == Ind(At(s.book.location[ticket := p], t, AtRouter)) {
      assert InRouter(s.routing.router, t) == Ind(At(s.book.location, t, AtRouter));
    }
  }

  lemma LookUpKeepsLedger(s: System)
    requires LedgerInv(s) && RouterEnabled(s, LookUpClient)
    ensures LedgerInv(LookUpStep(s))
  {
    RouterLetsGo(s, Lost);
    ElsewhereUndisturbed(s, s.routing.router.entry.ticket, Lost);
    assert s.routing.router.entry.client in s.shared.clients ==>
      forall t: nat :: InRouter(Holding(s.routing.router.msg, s.routing.router.entry), t) ==
        InRouter(s.routing.router, t);
  }

  lemma DeliverKeepsLedger(s: System)
    requires LedgerInv(s) && RouterEnabled(s, DeliverReply)
    ensures LedgerInv(DeliverStep(s))
  {
    var p, msg := s.routing.router.entry, s.routing.router.msg;
    RouterLetsGo(s, AtChannel);
    ElsewhereUndisturbed(s, p.ticket, AtChannel);
    ChannelTakes(s.shared.outbox, p.client, Reply(p.ticket, SetId(msg, p.localId)), p.ticket, s.book.requests,
                 s.book.location);
  }

  lemma StoreKeepsLedger(s: System)
    requires LedgerInv(s) && RouterEnabled(s, StoreReply)
    ensures LedgerInv(StoreReplyStep(s))
  {
    hide SetId, Ids.IssuedBelow;
    var n, owed, msg := StoreReplyStep(s), s.shared.waiting, s.routing.router.msg;
    var st := s.shared.(cached := Some(msg), initializing := false, waiting := []);
    PushAllDelivers(st, Replies(owed, msg), 0);
    forall t: nat ensures Count(owed, OwedTag, t) == Ind(At(s.book.location, t, AtWaiting)) {
      assert InWaiting(owed, t) == Ind(At(s.book.location, t, AtWaiting));
    }
    BatchSettles(st, Replies(owed, msg), owed, s.book.requests, s.book.location, n.book.location);
    SettledElsewhere(s, n.book.location, AtWaiting);
    assert forall t: nat :: InRouter(n.routing.router, t) == InRouter(s.routing.router, t);
  }

  lemma ReportKeepsLedger(s: System)
    requires LedgerInv(s) && ReaperEnabled(s, ReportReaped)
    ensures LedgerInv(ReportReapedStep(s))
  {
    var n, owed := ReportReapedStep(s), s.reaping.hand;
    PushAllDelivers(s.shared, Failures(owed, TIMED_OUT), 0);
    forall t: nat ensures Count(owed, OwedTag, t) == Ind(At(s.book.location, t, AtReaper)) {
      assert InReaper(owed, t) == Ind(At(s.book.location, t, AtReaper));
    }
    BatchSettles(s.shared, Failures(owed, TIMED_OUT), owed, s.book.requests, s.book.location, n.book.location);
    SettledElsewhere(s, n.book.location, AtReaper);
  }

  /** Requests in one place were answered or lost; the other ledgers do not notice. */
  lemma SettledElsewhere(s: System, after: seq<Place>, p: Place)
    requires LedgerInv(s) && |after| == |s.book.location|
    requires forall t :: 0 <= t < |after| ==>
      after[t] ==
        if s.book.location[t] == p then Answered(s.shared, ClientOf(s.book.requests, t)) else s.book.location[t]
    requires p == AtWaiting || p == AtReaper
    ensures ReaderLedger(s.readers, s.book.requests, after)
    ensures BufferLedger(s.shared.handshakes, s.book.requests, after)
    ensures p == AtReaper ==> WaitingLedger(s.shared.waiting, s.book.requests, after)
    ensures p == AtReaper ==> ReaperLedger([], s.book.requests, after)
    ensures p == AtWaiting ==> ReaperLedger(s.reaping.hand, s.book.requests, after)
    ensures p == AtWaiting ==> WaitingLedger([], s.book.requests, after)
    ensures PendingLedger(s.shared.pending, s.shared.nextGlobal, s.book.requests, after)
    ensures RouterLedger(s.routing.router, s.book.requests, after)
    ensures LostLedger(s.shared.clients, s.book.requests, after)
  {
    ReadersSpared(s.readers, s.book.requests, s.book.location, after);
    BuffersSpared(s.shared.handshakes, s.book.requests, s.book.location, after);
    TablesSpared(s.shared.waiting, s.reaping.hand, s.routing.router, s.book.requests, s.book.location, after);
    assert forall t: nat :: !At(after, t, p);
  }

  /** Draining some keys of the pending table yields each request filed under them once. */
  lemma {:induction false} DrainCount(
    pending: map<string, Pending>, order: seq<string>, location: seq<Place>, t: nat)
    requires forall g :: g in pending ==> At(location, pending[g].ticket, AtPending(g))
    requires forall t: nat :: t < |location| && location[t].AtPending? ==>
      location[t].id in pending && pending[location[t].id].ticket == t
    requires forall i :: 0 <= i < |order| ==> order[i] in pending
    requires forall i, j :: 0 <= i < j < |order| ==> order[i] != order[j]
    ensures Count(OwedList(pending, order), OwedTag, t) ==
            Ind(t < |location| && location[t].AtPending? && location[t].id in order)
  {
    if order != [] {
      var init, last := order[..|order| - 1], order[|order| - 1];
      DrainCount(pending, init, location, t);
      assert OwedList(pending, order) == OwedList(pending, init) + [OwedFor(pending[last])];
      CountSnoc(OwedList(pending, init), OwedFor(pending[last]), OwedTag, t);
      assert order == init + [last];
      assert last !in init;
    }
  }

  /** The requests whose entries are taken out are now with the reaper. */
  ghost predicate Reaped(expired: set<string>, before: seq<Place>, after: seq<Place>) {
    && |after| == |before|
    && forall t :: 0 <= t < |after| ==>
         after[t] == if before[t].AtPending? && before[t].id in expired then AtReaper else before[t]
  }

  lemma ReapedTable(
    pending: map<string, Pending>, expired: set<string>, nextGlobal: nat, requests: seq<Arrival>,
    before: seq<Place>, after: seq<Place>)
    requires PendingLedger(pending, nextGlobal, requests, before) && Reaped(expired, before, after)
    ensures PendingLedger(pending - expired, nextGlobal, requests, after)
  {
    hide Ids.IssuedBelow;
  }

  lemma ReapedHand(
    pending: map<string, Pending>, order: seq<string>, expired: set<string>, nextGlobal: nat, requests: seq<Arrival>,
    before: seq<Place>, after: seq<Place>)
    requires PendingLedger(pending, nextGlobal, requests, before) && Reaped(expired, before, after)
    requires Enumerates(order, expired) && expired <= pending.Keys
    requires ReaperLedger([], requests, before)
    ensures ReaperLedger(OwedList(pending, order), requests, after)
  {
    hide Ids.IssuedBelow;
    var hand := OwedList(pending, order);
    forall t: nat ensures InReaper(hand, t) == Ind(At(after, t, AtReaper)) {
      DrainCount(pending, order, before, t);
      assert InReaper([], t) == Ind(At(before, t, AtReaper));
    }
  }

  lemma ReapKeepsLedger(s: System, order: seq<string>)
    requires LedgerInv(s) && ReaperEnabled(s, Reap(order))
    ensures LedgerInv(ReapStep(s, order))
  {
    hide ReaderLedger, ChannelLedger, BufferLedger, WaitingLedger, ReaperLedger, RouterLedger, PendingLedger, OwedList;
    var n, expired := ReapStep(s, order), ExpiredKeys(s.shared, s.now, s.config.requestTimeout);
    var requests, before, after := s.book.requests, s.book.location, n.book.location;
    ReapedTable(s.shared.pending, expired, s.shared.nextGlobal, requests, before, after);
    ReapedHand(s.shared.pending, order, expired, s.shared.nextGlobal, requests, before, after);
    ReadersSpared(s.readers, requests, before, after);
    BuffersSpared(s.shared.handshakes, requests, before, after);
    ChannelsSpared(s.shared.outbox, requests, before, after);
    TablesSpared(s.shared.waiting, s.reaping.hand, s.routing.router, requests, before, after);
  }

  function Drained(st: State): State {
    st.(pending := map[], waiting := [], cached := None, initializing := false)
  }

  /** Where requests are once the pending table, but not the waiting list, was failed. */
  function AfterPendingFailed(st: State, requests: seq<Arrival>, location: seq<Place>): seq<Place> {
    seq(|location|, t requires 0 <= t < |location| =>
      if location[t].AtPending? then Answered(st, ClientOf(requests, t)) else location[t])
  }

  lemma FailPendingSettles(st: State, order: seq<string>, requests: seq<Arrival>, location: seq<Place>)
    requires |requests| == |location| && st.clients <= st.outbox.Keys
    requires ChannelLedger(st.outbox, requests, location)
    requires PendingLedger(st.pending, st.nextGlobal, requests, location)
    requires Enumerates(order, st.pending.Keys)
    ensures var half := PushAll(Drained(st), Failures(OwedList(st.pending, order), RESTARTED));
      && half == Drained(st).(outbox := half.outbox)
      && half.outbox.Keys == st.outbox.Keys
      && ChannelLedger(half.outbox, requests, AfterPendingFailed(st, requests, location))
  {
    hide ChannelLedger, Count;
    var owed := OwedList(st.pending, order);
    forall t: nat ensures Count(owed, OwedTag, t) == Ind(t < |location| && location[t].AtPending?) {
      DrainCount(st.pending, order, location, t);
    }
    PushAllDelivers(Drained(st), Failures(owed, RESTARTED), 0);
    BatchSettles(Drained(st), Failures(owed, RESTARTED), owed, requests, location,
                 AfterPendingFailed(st, requests, location));
  }

  lemma FailWaitingSettles(st: State, owed: seq<Owed>, requests: seq<Arrival>, before: seq<Place>, after: seq<Place>)
    requires |requests| == |before| == |after| && st.clients <= st.outbox.Keys
    requires ChannelLedger(st.outbox, requests, before)
    requires WaitingLedger(owed, requests, before)
    requires forall t :: 0 <= t < |after| ==>
      after[t] == if before[t] == AtWaiting then Answered(st, ClientOf(requests, t)) else before[t]
    ensures var full := PushAll(st, Failures(owed, RESTARTED));
      && full == st.(outbox := full.outbox)
      && full.outbox.Keys == st.outbox.Keys
      && ChannelLedger(full.outbox, requests, after)
  {
    forall t: nat ensures Count(owed, OwedTag, t) == Ind(At(before, t, AtWaiting)) {
      assert InWaiting(owed, t) == Ind(At(before, t, AtWaiting));
    }
    PushAllDelivers(st, Failures(owed, RESTARTED), 0);
    BatchSettles(st, Failures(owed, RESTARTED), owed, requests, before, after);
  }

  lemma ResetSettles(s: System, order: seq<string>)
    requires LedgerInv(s) && Enumerates(order, s.shared.pending.Keys)
    requires s.routing.events != [] && s.routing.events[0].ResetEvent?
    ensures var n := HandleResetStep(s, order);
      && n.shared == Drained(s.shared).(outbox := n.shared.outbox)
      && n.shared.outbox.Keys == s.shared.outbox.Keys
      && ChannelLedger(n.shared.outbox, n.book.requests, n.book.location)
  {
    var st, waiting := s.shared, s.shared.waiting;
    var middle := AfterPendingFailed(st, s.book.requests, s.book.location);
    FailPendingSettles(st, order, s.book.requests, s.book.location);
    var half := PushAll(Drained(st), Failures(OwedList(st.pending, order), RESTARTED));
    forall t: nat ensures InWaiting(waiting, t) == Ind(At(middle, t, AtWaiting)) {
      assert InWaiting(waiting, t) == Ind(At(s.book.location, t, AtWaiting));
    }
    FailWaitingSettles(half, waiting, s.book.requests, middle, HandleResetStep(s, order).book.location);
  }

  lemma EmptyTables(nextGlobal: nat, requests: seq<Arrival>, after: seq<Place>)
    requires forall t :: 0 <= t < |after| ==> !after[t].AtPending? && after[t] != AtWaiting
    ensures PendingLedger(map[], nextGlobal, requests, after) && WaitingLedger([], requests, after)
  {
  }

  lemma ResetKeepsLedger(s: System, order: seq<string>)
    requires LedgerInv(s) && RouterEnabled(s, HandleReset(order))
    ensures LedgerInv(HandleResetStep(s, order))
  {
    hide PushAll, ReaderLedger, ChannelLedger, BufferLedger, WaitingLedger, ReaperLedger, RouterLedger, PendingLedger;
    var n := HandleResetStep(s, order);
    ResetSettles(s, order);
    var requests, before, after := s.book.requests, s.book.location, n.book.location;
    ReadersSpared(s.readers, requests, before, after);
    BuffersSpared(s.shared.handshakes, requests, before, after);
    TablesSpared(s.shared.waiting, s.reaping.hand, s.routing.router, requests, before, after);
    EmptyTables(s.shared.nextGlobal, requests, after);
  }

  lemma RouterStepKeepsLedger(s: System, a: RouterAction)
    requires LedgerInv(s) && RouterEnabled(s, a)
    ensures LedgerInv(RouterStep(s, a))
  {
    match a
    case Route => RouteKeepsLedger(s);
    case StoreReply => StoreKeepsLedger(s);
    case LookUpClient => LookUpKeepsLedger(s);
    case DeliverReply => DeliverKeepsLedger(s);
    case HandleReset(order) => ResetKeepsLedger(s, order);
  }

  lemma ManagerStepKeepsLedger(s: System, a: ManagerAction)
    requires LedgerInv(s) && ManagerEnabled(s, a)
    ensures LedgerInv(ManagerStep(s, a))
  {
    ManagerLeavesTables(s, a);
    SameTables(s, ManagerStep(s, a));
  }

  lemma ManagerLeavesTables(s: System, a: ManagerAction)
    requires ManagerEnabled(s, a)
    ensures var n := ManagerStep(s, a);
      && n.book == s.book && n.readers == s.readers && n.reaping == s.reaping && n.routing.router == s.routing.router
      && n.shared == s.shared.(cached := n.shared.cached, initializing := n.shared.initializing)
  {
  }

  lemma SameTables(s: System, n: System)
    requires LedgerInv(s)
    requires n.book == s.book && n.readers == s.readers && n.reaping == s.reaping &&
             n.routing.router == s.routing.router
    requires n.shared == s.shared.(cached := n.shared.cached, initializing := n.shared.initializing)
    ensures LedgerInv(n)
  {
  }

  lemma StepKeepsLedger(s: System, l: Label)
    requires LedgerInv(s) && Enabled(s, l)
    ensures LedgerInv(Apply(s, l))
  {
    match l
    case Connect => ConnectKeepsLedger(s);
    case ByClient(c, a) => ClientStepKeepsLedger(s, c, a);
    case ByManager(a) => ManagerStepKeepsLedger(s, a);
    case ByRouter(a) => RouterStepKeepsLedger(s, a);
    case ByReaper(a) =>
      if a.Reap? { ReapKeepsLedger(s, a.order); } else { ReportKeepsLedger(s); }
    case _ =>
  }

  lemma {:induction false} RunKeepsLedger(s: System, labels: seq<Label>)
    requires LedgerInv(s) && IsRun(s, labels)
    ensures LedgerInv(Final(s, labels))
    decreases |labels|
  {
    hide Enabled, Apply, LedgerInv;
    if labels != [] {
      StepKeepsLedger(s, labels[0]);
      RunKeepsLedger(Apply(s, labels[0]), labels[1..]);
    }
  }

  // ----- theorems

  lemma PendingCopies(s: System, t: nat)
    requires LedgerInv(s)
    ensures |PendingIds(s.shared.pending, t)| == Ind(t < |s.book.location| && s.book.location[t].AtPending?)
  {
    var ids := PendingIds(s.shared.pending, t);
    if t < |s.book.location| && s.book.location[t].AtPending? {
      assert ids == {s.book.location[t].id};
    } else {
      assert ids == {};
    }
  }

  /** Conservation. In every run, a request whose client is registered is in exactly one
      place of the daemon, a request of any client is in at most one, and no part of it
      ever shows up at another client. Answers count as copies, so nothing is answered
      twice, and nothing that was answered is still waiting anywhere. */
  lemma EveryRequestInOnePlace(s: System, labels: seq<Label>, t: nat, d: nat)
    requires Initial(s) && IsRun(s, labels)
    requires t < |Final(s, labels).book.requests|
    ensures var n := Final(s, labels);
      var c := n.book.requests[t].client;
      && Copies(n, c, t) <= 1
      && (c in n.shared.clients ==> Copies(n, c, t) == 1)
      && (d != c ==>
            InReader(n.readers, d, t) == InBuffer(n.shared.handshakes, d, t) == InChannel(n.shared.outbox, d, t) == 0)
  {
    hide Enabled, Apply, IsRun, Final;
    RunKeepsLedger(s, labels);
    var n := Final(s, labels);
    var c := n.book.requests[t].client;
    PendingCopies(n, t);
    assert InReader(n.readers, c, t) == Ind(Owned(n.book.requests, n.book.location, c, t, AtReader));
    assert InBuffer(n.shared.handshakes, c, t) == Ind(Owned(n.book.requests, n.book.location, c, t, AtBuffer));
    assert InChannel(n.shared.outbox, c, t) == Ind(Owned(n.book.requests, n.book.location, c, t, AtChannel));
    assert InWaiting(n.shared.waiting, t) == Ind(At(n.book.location, t, AtWaiting));
    assert InReaper(n.reaping.hand, t) == Ind(At(n.book.location, t, AtReaper));
    assert InRouter(n.routing.router, t) == Ind(At(n.book.location, t, AtRouter));
  }
}
