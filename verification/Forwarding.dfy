/** Holding requests back until the handshake is over does not lose, duplicate or reorder
    them: a connected client's requests reach the queue in the order it sent them. */
module Forwarding {
  import opened Json
  import opened Shared
  import opened Protocol
  import opened Frames

  // ----- what a client asked for and what became of it

  /** Request `t` of client `c` is one that is buffered or forwarded: not too large and not
      an initialize. */
  predicate Forwardable(requests: seq<Arrival>, t: nat, c: nat) {
    t < |requests| && requests[t].client == c && !requests[t].tooLarge && Method(requests[t].body) != "initialize"
  }

  /** The forwardable requests of a client in the order it sent them, less those that were
      refused for overload or because the queue had closed. */
  function Accepted(requests: seq<Arrival>, away: set<nat>, c: nat): seq<nat> {
    if requests == [] then []
    else
      var t := |requests| - 1;
      Accepted(requests[..t], away, c) + if Forwardable(requests, t, c) && t !in away then [t] else []
  }

  /** The forwardable requests of a client in the order they entered the queue. */
  function Queued(enqueued: seq<Item>, requests: seq<Arrival>, c: nat): seq<nat> {
    if enqueued == [] then []
    else
      var last := enqueued[|enqueued| - 1].origin;
      Queued(enqueued[..|enqueued| - 1], requests, c) +
      if last.FromRequest? && Forwardable(requests, last.ticket, c) then [last.ticket] else []
  }

  function Tickets(reqs: seq<Request>): seq<nat> {
    seq(|reqs|, i requires 0 <= i < |reqs| => reqs[i].ticket)
  }

  /** What the reader is about to send, ahead of anything buffered. */
  function Front(r: Reader): seq<nat> {
    match r
    case Flushing(todo) => Tickets(todo)
    case Sending(req, _, rest) => (if Method(req.body) != INITIALIZE then [req.ticket] else []) + Tickets(rest)
    case _ => []
  }

  /** What the reader has just read, behind anything buffered. */
  function Back(r: Reader): seq<nat> {
    match r
    case Asked(req, tooLarge) => if !tooLarge && Method(req.body) != INITIALIZE then [req.ticket] else []
    case Buffering(req) => [req.ticket]
    case _ => []
  }

  /** Everything on its way from the client to the queue, in order. */
  function InFlight(r: Reader, buffered: seq<Request>): seq<nat> {
    Front(r) + Tickets(buffered) + Back(r)
  }

  // ----- sequences of tickets

  function Without(xs: seq<nat>, t: nat): seq<nat> {
    if xs == [] then []
    else Without(xs[..|xs| - 1], t) + if xs[|xs| - 1] == t then [] else [xs[|xs| - 1]]
  }

  lemma {:induction false} WithoutConcat(xs: seq<nat>, ys: seq<nat>, t: nat)
    ensures Without(xs + ys, t) == Without(xs, t) + Without(ys, t)
  {
    if ys == [] {
      assert xs + ys == xs;
    } else {
      WithoutConcat(xs, ys[..|ys| - 1], t);
      assert (xs + ys)[..|xs + ys| - 1] == xs + ys[..|ys| - 1];
    }
  }

  lemma {:induction false} WithoutAbsent(xs: seq<nat>, t: nat)
    requires t !in xs
    ensures Without(xs, t) == xs
  {
    if xs != [] {
      WithoutAbsent(xs[..|xs| - 1], t);
      assert xs == xs[..|xs| - 1] + [xs[|xs| - 1]];
    }
  }

  ghost predicate Below(xs: seq<nat>, n: nat) {
    forall i :: 0 <= i < |xs| ==> xs[i] < n
  }

  ghost predicate Increasing(xs: seq<nat>) {
    forall i, j :: 0 <= i < j < |xs| ==> xs[i] < xs[j]
  }

  lemma OnlyInTheMiddle(xs: seq<nat>, t: nat, ys: seq<nat>)
    requires Increasing(xs + [t] + ys)
    ensures t !in xs && t !in ys
  {
    var all := xs + [t] + ys;
    assert all[|xs|] == t;
    assert forall i :: 0 <= i < |xs| ==> all[i] == xs[i];
    assert forall i :: 0 <= i < |ys| ==> all[|xs| + 1 + i] == ys[i];
  }

  /** Taking the element at a known position out of an increasing sequence. */
  lemma WithoutMiddle(xs: seq<nat>, t: nat, ys: seq<nat>)
    requires Increasing(xs + [t] + ys)
    ensures Without(xs + [t] + ys, t) == xs + ys
  {
    OnlyInTheMiddle(xs, t, ys);
    calc {
      Without(xs + [t] + ys, t);
    == { WithoutConcat(xs + [t], ys, t); WithoutAbsent(ys, t); }
      Without(xs + [t], t) + ys;
    == { assert (xs + [t])[..|xs|] == xs; WithoutAbsent(xs, t); }
      xs + [] + ys;
    ==
      xs + ys;
    }
  }

  lemma {:induction false} AcceptedIncreasing(requests: seq<Arrival>, away: set<nat>, c: nat)
    ensures Increasing(Accepted(requests, away, c))
    ensures Below(Accepted(requests, away, c), |requests|)
  {
    if requests != [] {
      var init := requests[..|requests| - 1];
      AcceptedIncreasing(init, away, c);
      var xs, all := Accepted(init, away, c), Accepted(requests, away, c);
      assert all == xs || all == xs + [|init|];
      assert forall i :: 0 <= i < |all| ==> all[i] == if i < |xs| then xs[i] else |init|;
    }
  }

  lemma {:induction false} AcceptedWithout(requests: seq<Arrival>, away: set<nat>, c: nat, t: nat)
    ensures Accepted(requests, away + {t}, c) == Without(Accepted(requests, away, c), t)
  {
    if requests != [] {
      var n := |requests| - 1;
      AcceptedWithout(requests[..n], away, c, t);
      var tail := if Forwardable(requests, n, c) && n !in away then [n] else [];
      WithoutConcat(Accepted(requests[..n], away, c), tail, t);
      assert tail != [] ==> tail[..0] == [];
    }
  }

  lemma {:induction false} AcceptedOnlyForwardable(requests: seq<Arrival>, away: set<nat>, c: nat)
    ensures forall t :: t in Accepted(requests, away, c) ==> Forwardable(requests, t, c)
  {
    if requests != [] { AcceptedOnlyForwardable(requests[..|requests| - 1], away, c); }
  }

  lemma AcceptedUnlessForwardable(requests: seq<Arrival>, away: set<nat>, c: nat, t: nat)
    requires !Forwardable(requests, t, c)
    ensures Accepted(requests, away + {t}, c) == Accepted(requests, away, c)
  {
    AcceptedWithout(requests, away, c, t);
    AcceptedOnlyForwardable(requests, away, c);
    WithoutAbsent(Accepted(requests, away, c), t);
  }

  lemma AcceptedArrival(requests: seq<Arrival>, a: Arrival, away: set<nat>, c: nat)
    ensures Accepted(requests + [a], away, c) ==
      Accepted(requests, away, c) +
      if Forwardable(requests + [a], |requests|, c) && |requests| !in away then [|requests|] else []
  {
    assert (requests + [a])[..|requests|] == requests;
  }

  ghost predicate Arrived(enqueued: seq<Item>, requests: seq<Arrival>) {
    forall i :: 0 <= i < |enqueued| && enqueued[i].origin.FromRequest? ==> enqueued[i].origin.ticket < |requests|
  }

  lemma {:induction false} QueuedArrival(enqueued: seq<Item>, requests: seq<Arrival>, a: Arrival, c: nat)
    requires Arrived(enqueued, requests)
    ensures Queued(enqueued, requests + [a], c) == Queued(enqueued, requests, c)
  {
    if enqueued != [] { QueuedArrival(enqueued[..|enqueued| - 1], requests, a, c); }
  }

  lemma QueuedOffer(enqueued: seq<Item>, item: Item, requests: seq<Arrival>, c: nat)
    ensures Queued(enqueued + [item], requests, c) ==
      Queued(enqueued, requests, c) +
      if item.origin.FromRequest? && Forwardable(requests, item.origin.ticket, c) then [item.origin.ticket] else []
  {
    assert (enqueued + [item])[..|enqueued|] == enqueued;
  }

  // ----- the invariant

  /** A faithful copy of a forwardable request of this client. */
  predicate Plain(requests: seq<Arrival>, c: nat, req: Request) {
    Forwardable(requests, req.ticket, c) && requests[req.ticket].body == req.body
  }

  ghost predicate AllPlain(requests: seq<Arrival>, c: nat, reqs: seq<Request>) {
    forall i :: 0 <= i < |reqs| ==> Plain(requests, c, reqs[i])
  }

  ghost predicate ReaderShape(requests: seq<Arrival>, c: nat, r: Reader) {
    match r
    case Asked(req, tooLarge) =>
      req.ticket < |requests| && requests[req.ticket] == Arrival(c, req.body, tooLarge)
    case Buffering(req) => Plain(requests, c, req)
    case Flushing(todo) => AllPlain(requests, c, todo)
    case Sending(req, _, rest) =>
      && req.ticket < |requests| && requests[req.ticket] == Arrival(c, req.body, false)
      && AllPlain(requests, c, rest)
    case _ => true
  }

  ghost predicate HandshakeShape(requests: seq<Arrival>, c: nat, r: Reader, h: Handshake) {
    && AllPlain(requests, c, h.buffered)
    && (h.initialized ==> h.buffered == [])
    && (Front(r) != [] ==> h.initialized)
    && (r.Buffering? ==> !h.initialized)
  }

  /** Accepted requests are those already queued, then those in flight, in that order. */
  ghost predicate Balanced(b: Book, enqueued: seq<Item>, r: Reader, buffered: seq<Request>, c: nat) {
    Accepted(b.requests, b.turnedAway, c) == Queued(enqueued, b.requests, c) + InFlight(r, buffered)
  }

  ghost predicate Flow(s: System, c: nat) {
    c in s.readers && ReaderShape(s.book.requests, c, s.readers[c]) &&
    (c in s.shared.handshakes ==>
      && HandshakeShape(s.book.requests, c, s.readers[c], s.shared.handshakes[c])
      && Balanced(s.book, s.queue.enqueued, s.readers[c], s.shared.handshakes[c].buffered, c))
  }

  ghost predicate FlowInv(s: System) {
    && 1 <= s.shared.nextClient
    && s.shared.handshakes.Keys <= s.readers.Keys
    && (forall c :: c in s.readers <==> 1 <= c < s.shared.nextClient)
    && (forall t :: 0 <= t < |s.book.requests| ==> s.book.requests[t].client in s.readers)
    && (forall t :: t in s.book.turnedAway ==> t < |s.book.requests|)
    && Arrived(s.queue.enqueued, s.book.requests)
    && (forall c :: c in s.readers ==> Flow(s, c))
  }

  // ----- steps of a client

  lemma TurnAwayHead(b: Book, c: nat, t: nat, before: seq<nat>, after: seq<nat>)
    requires Accepted(b.requests, b.turnedAway, c) == before + [t] + after
    ensures Accepted(b.requests, b.turnedAway + {t}, c) == before + after
  {
    AcceptedIncreasing(b.requests, b.turnedAway, c);
    AcceptedWithout(b.requests, b.turnedAway, c, t);
    WithoutMiddle(before, t, after);
  }

  lemma TicketsSplit(reqs: seq<Request>)
    requires reqs != []
    ensures Tickets(reqs) == [reqs[0].ticket] + Tickets(reqs[1..])
  {
  }

  lemma TicketsSnoc(reqs: seq<Request>, req: Request)
    ensures Tickets(reqs + [req]) == Tickets(reqs) + [req.ticket]
  {
  }

  lemma ReceiveKeepsFlow(s: System, c: nat, msg: Value, tooLarge: bool)
    requires FlowInv(s) && ClientEnabled(s, c, Receive(msg, tooLarge))
    ensures Flow(ReceiveStep(s, c, msg, tooLarge), c)
  {
    hide Accepted, Queued;
    assert Flow(s, c);
    if IsRequest(msg, tooLarge) {
      var a, t := Arrival(c, msg, tooLarge), |s.book.requests|;
      AcceptedArrival(s.book.requests, a, s.book.turnedAway, c);
      QueuedArrival(s.queue.enqueued, s.book.requests, a, c);
    }
  }

  lemma OverloadBalances(b: Book, enqueued: seq<Item>, todo: seq<Request>, c: nat)
    requires todo != [] && Balanced(b, enqueued, Flushing(todo), [], c)
    ensures Balanced(TurnAway(b, todo[0].ticket), enqueued, Flushing(todo[1..]), [], c)
  {
    var sent, t, rest := Queued(enqueued, b.requests, c), todo[0].ticket, Tickets(todo[1..]);
    TicketsSplit(todo);
    assert InFlight(Flushing(todo), []) == [t] + rest;
    assert InFlight(Flushing(todo[1..]), []) == rest;
    Regroup(sent, [t], rest);
    TurnAwayHead(b, c, t, sent, rest);
  }

  lemma OverloadKeepsFlow(s: System, c: nat)
    requires Flow(s, c) && ClientEnabled(s, c, ForwardNext) && Overloaded(s.shared)
    ensures Flow(ForwardStep(s, c), c)
  {
    if c in s.shared.handshakes {
      assert Front(s.readers[c]) != [];
      OverloadBalances(s.book, s.queue.enqueued, s.readers[c].todo, c);
    }
  }

  lemma AcceptKeepsFlow(s: System, c: nat)
    requires Flow(s, c) && ClientEnabled(s, c, ForwardNext) && !Overloaded(s.shared)
    ensures Flow(ForwardStep(s, c), c)
  {
    TicketsSplit(s.readers[c].todo);
    assert Plain(s.book.requests, c, s.readers[c].todo[0]);
  }

  /** Sending takes the first element in flight, unless it was an initialize. */
  lemma SendTakesFirst(req: Request, id: string, rest: seq<Request>, buffered: seq<Request>)
    ensures InFlight(Sending(req, id, rest), buffered) ==
            (if Method(req.body) != INITIALIZE then [req.ticket] else []) + InFlight(Flushing(rest), buffered)
  {
  }

  lemma Regroup(xs: seq<nat>, ys: seq<nat>, zs: seq<nat>)
    ensures xs + (ys + zs) == (xs + ys) + zs
  {
  }

  lemma EnqueueBalances(b: Book, enqueued: seq<Item>, r: Reader, body: Value, buffered: seq<Request>, c: nat)
    requires r.Sending? && ReaderShape(b.requests, c, r) && Balanced(b, enqueued, r, buffered, c)
    ensures Balanced(b, enqueued + [Item(FromRequest(r.req.ticket), body)], Flushing(r.rest), buffered, c)
  {
    var sent, rest := Queued(enqueued, b.requests, c), InFlight(Flushing(r.rest), buffered);
    var head := if Method(r.req.body) != INITIALIZE then [r.req.ticket] else [];
    calc {
      Accepted(b.requests, b.turnedAway, c);
    ==
      sent + InFlight(r, buffered);
    == { SendTakesFirst(r.req, r.id, r.rest, buffered); }
      sent + (head + rest);
    == { Regroup(sent, head, rest); }
      (sent + head) + rest;
    == { QueuedOffer(enqueued, Item(FromRequest(r.req.ticket), body), b.requests, c); }
      Queued(enqueued + [Item(FromRequest(r.req.ticket), body)], b.requests, c) + rest;
    }
  }

  lemma EnqueueKeepsFlow(s: System, c: nat)
    requires Flow(s, c) && ClientEnabled(s, c, Enqueue)
    ensures Flow(ClientStep(s, c, Enqueue), c)
  {
    var r := s.readers[c];
    if c in s.shared.handshakes {
      EnqueueBalances(s.book, s.queue.enqueued, r, SetId(r.req.body, Str(r.id)), s.shared.handshakes[c].buffered, c);
    }
  }

  lemma ClosedBalances(b: Book, enqueued: seq<Item>, r: Reader, buffered: seq<Request>, c: nat)
    requires r.Sending? && ReaderShape(b.requests, c, r) && Balanced(b, enqueued, r, buffered, c)
    ensures Balanced(TurnAway(b, r.req.ticket), enqueued, Flushing(r.rest), buffered, c)
  {
    var sent, rest, t := Queued(enqueued, b.requests, c), InFlight(Flushing(r.rest), buffered), r.req.ticket;
    SendTakesFirst(r.req, r.id, r.rest, buffered);
    if Method(r.req.body) != INITIALIZE {
      Regroup(sent, [t], rest);
      TurnAwayHead(b, c, t, sent, rest);
    } else {
      assert [] + rest == rest;
      AcceptedUnlessForwardable(b.requests, b.turnedAway, c, t);
    }
  }

  lemma ClosedKeepsFlow(s: System, c: nat)
    requires Flow(s, c) && ClientEnabled(s, c, EnqueueClosed)
    ensures Flow(ClientStep(s, c, EnqueueClosed), c)
  {
    if c in s.shared.handshakes {
      ClosedBalances(s.book, s.queue.enqueued, s.readers[c], s.shared.handshakes[c].buffered, c);
    }
  }

  lemma BufferKeepsFlow(s: System, c: nat)
    requires Flow(s, c) && ClientEnabled(s, c, BufferRequest)
    ensures Flow(BufferStep(s, c), c)
  {
    hide Accepted, Queued;
    if c in s.shared.handshakes { TicketsSnoc(s.shared.handshakes[c].buffered, s.readers[c].req); }
  }

  lemma InitializeKeepsFlow(s: System, c: nat)
    requires Flow(s, c) && ClientEnabled(s, c, InitializeRequest)
    ensures Flow(InitializeStep(s, c), c)
  {
  }

  /** Steps between points at which nothing is on its way ahead of or behind the buffer. */
  lemma BetweenRequestsKeepsFlow(s: System, c: nat, a: ClientAction)
    requires Flow(s, c) && ClientEnabled(s, c, a)
    requires a.RejectTooLarge? || a.FlushDone? || a.ReportTimeout? || a.ClaimInitialized? || a.NoticeTimeout?
    ensures Flow(ClientStep(s, c, a), c)
  {
    var after := ClientStep(s, c, a).readers[c];
    assert Front(after) == Front(s.readers[c]) == [];
    assert Back(after) == Back(s.readers[c]) == [];
  }

  lemma EndingKeepsFlow(s: System, c: nat, a: ClientAction)
    requires Flow(s, c) && ClientEnabled(s, c, a)
    requires a.HangUp? || a.DecodeError? || a.LeaveClient? || a.WriterGone?
    ensures Flow(ClientStep(s, c, a), c)
  {
  }

  lemma FinishKeepsFlow(s: System, c: nat)
    requires Flow(s, c) && ClientEnabled(s, c, FinishHandshake)
    ensures Flow(FinishHandshakeStep(s, c), c)
  {
    if c in s.shared.handshakes {
      var buffered := s.shared.handshakes[c].buffered;
      assert InFlight(Flushing(buffered), []) == Tickets(buffered) == InFlight(Completing, buffered);
    }
  }

  lemma CheckKeepsFlow(s: System, c: nat)
    requires Flow(s, c) && ClientEnabled(s, c, CheckHandshake)
    ensures Flow(ClientStep(s, c, CheckHandshake), c)
  {
    var req := s.readers[c].req;
    if c in s.shared.handshakes {
      var buffered := s.shared.handshakes[c].buffered;
      assert Front(s.readers[c]) == Front(Buffering(req)) == Back(Flushing([req])) == [];
      assert Back(s.readers[c]) == Back(Buffering(req)) == Front(Flushing([req])) == [req.ticket];
    }
  }

  lemma OfferBalances(b: Book, enqueued: seq<Item>, item: Item, r: Reader, buffered: seq<Request>, c: nat)
    requires Balanced(b, enqueued, r, buffered, c)
    requires item.origin.FromRequest? ==> !Forwardable(b.requests, item.origin.ticket, c)
    ensures Balanced(b, enqueued + [item], r, buffered, c)
  {
    QueuedOffer(enqueued, item, b.requests, c);
  }

  lemma OfferKeepsFlow(s: System, c: nat, a: ClientAction)
    requires Flow(s, c) && ClientEnabled(s, c, a) && (a.Announce? || a.ForwardNotice?)
    ensures Flow(ClientStep(s, c, a), c)
  {
    var item := Item(if a.Announce? then FromHandshake(c) else FromNotice(c), s.readers[c].msg);
    if c in s.shared.handshakes {
      OfferBalances(s.book, s.queue.enqueued, item, s.readers[c], s.shared.handshakes[c].buffered, c);
    }
  }

  lemma ClientStepKeepsFlow(s: System, c: nat, a: ClientAction)
    requires FlowInv(s) && ClientEnabled(s, c, a)
    ensures Flow(ClientStep(s, c, a), c)
  {
    assert Flow(s, c);
    match a
    case Receive(msg, tooLarge) => ReceiveKeepsFlow(s, c, msg, tooLarge);
    case Announce => OfferKeepsFlow(s, c, a);
    case ForwardNotice => OfferKeepsFlow(s, c, a);
    case InitializeRequest => InitializeKeepsFlow(s, c);
    case BufferRequest => BufferKeepsFlow(s, c);
    case ForwardNext => if Overloaded(s.shared) { OverloadKeepsFlow(s, c); } else { AcceptKeepsFlow(s, c); }
    case Enqueue => EnqueueKeepsFlow(s, c);
    case EnqueueClosed => ClosedKeepsFlow(s, c);
    case FinishHandshake => FinishKeepsFlow(s, c);
    case CheckHandshake => CheckKeepsFlow(s, c);
    case HangUp => EndingKeepsFlow(s, c, a);
    case DecodeError => EndingKeepsFlow(s, c, a);
    case LeaveClient => EndingKeepsFlow(s, c, a);
    case WriterGone => EndingKeepsFlow(s, c, a);
    case _ => BetweenRequestsKeepsFlow(s, c, a);
  }

  // ----- what a step of one client means for the others

  /** The request a reader is in the middle of forwarding. */
  predicate Handles(r: Reader, t: nat) {
    (r.Sending? && r.req.ticket == t) || (r.Flushing? && r.todo != [] && r.todo[0].ticket == t)
  }

  function TicketOf(r: Reader): nat {
    match r
    case Sending(req, _, _) => req.ticket
    case Flushing(todo) => if todo == [] then 0 else todo[0].ticket
    case _ => 0
  }

  /** A step of client `c` appends at most one arrival and one queued item, turns away at
      most one request, all its own, and leaves other clients' readers and buffers alone. */
  ghost predicate OwnBusiness(s: System, n: System, c: nat, t: nat, more: seq<Arrival>, items: seq<Item>)
    requires c in s.readers
  {
    && n.book.requests == s.book.requests + more && |more| <= 1
    && (more != [] ==> more[0].client == c && n.book.turnedAway == s.book.turnedAway && items == [])
    && n.queue.enqueued == s.queue.enqueued + items && |items| <= 1
    && (items != [] && items[0].origin.FromRequest? ==> items[0].origin.ticket == t)
    && (n.book.turnedAway == s.book.turnedAway || n.book.turnedAway == s.book.turnedAway + {t})
    && (Handles(s.readers[c], t) ||
        (n.book.turnedAway == s.book.turnedAway && (items != [] ==> !items[0].origin.FromRequest?)))
  }

  /** Other clients' readers and handshakes are not touched. */
  ghost predicate OthersSame(s: System, n: System, c: nat) {
    && n.readers.Keys == s.readers.Keys
    && n.shared.handshakes.Keys <= s.shared.handshakes.Keys
    && n.shared.nextClient == s.shared.nextClient
    && (forall d :: d != c && d in s.readers ==> n.readers[d] == s.readers[d])
    && (forall d :: d != c && d in s.shared.handshakes ==>
          d in n.shared.handshakes && n.shared.handshakes[d] == s.shared.handshakes[d])
  }

  lemma ClientMindsOwnBusiness(s: System, c: nat, a: ClientAction)
    requires ClientEnabled(s, c, a)
    ensures var n := ClientStep(s, c, a);
      exists more, items :: OwnBusiness(s, n, c, TicketOf(s.readers[c]), more, items)
  {
    var n := ClientStep(s, c, a);
    var more := n.book.requests[|s.book.requests|..];
    var items := n.queue.enqueued[|s.queue.enqueued|..];
    assert OwnBusiness(s, n, c, TicketOf(s.readers[c]), more, items);
  }

  lemma ClientLeavesOthersAlone(s: System, c: nat, a: ClientAction)
    requires ClientEnabled(s, c, a)
    ensures OthersSame(s, ClientStep(s, c, a), c)
  {
    ClientStepOtherReaders(s, c, a);
    ClientStepOtherHandshakes(s, c, a);
  }

  lemma ArrivalBalances(b: Book, a: Arrival, n: Book, enqueued: seq<Item>, d: nat, r: Reader, buffered: seq<Request>)
    requires n.requests == b.requests + [a] && n.turnedAway == b.turnedAway && a.client != d
    requires Arrived(enqueued, b.requests) && Balanced(b, enqueued, r, buffered, d)
    ensures Balanced(n, enqueued, r, buffered, d)
  {
    AcceptedArrival(b.requests, a, b.turnedAway, d);
    QueuedArrival(enqueued, b.requests, a, d);
  }

  lemma OtherTurnedAwayBalances(
    b: Book, t: nat, n: Book, enqueued: seq<Item>, d: nat, r: Reader, buffered: seq<Request>)
    requires n.requests == b.requests && n.turnedAway == b.turnedAway + {t} && !Forwardable(b.requests, t, d)
    requires Balanced(b, enqueued, r, buffered, d)
    ensures Balanced(n, enqueued, r, buffered, d)
  {
    AcceptedUnlessForwardable(b.requests, b.turnedAway, d, t);
  }

  lemma OwnBusinessBalances(
    s: System, n: System, c: nat, t: nat, more: seq<Arrival>, items: seq<Item>, d: nat, r: Reader,
    buffered: seq<Request>)
    requires c in s.readers && OwnBusiness(s, n, c, t, more, items) && d != c
    requires ReaderShape(s.book.requests, c, s.readers[c]) && Arrived(s.queue.enqueued, s.book.requests)
    requires Balanced(s.book, s.queue.enqueued, r, buffered, d)
    ensures Balanced(n.book, n.queue.enqueued, r, buffered, d)
  {
    var b, enqueued := s.book, s.queue.enqueued;
    assert items == [] || items == [items[0]];
    assert items == [] ==> enqueued + items == enqueued;
    if more != [] {
      assert more == [more[0]];
      ArrivalBalances(b, more[0], n.book, enqueued, d, r, buffered);
    } else {
      assert b.requests + more == b.requests;
      assert Handles(s.readers[c], t) ==> !Forwardable(b.requests, t, d);
      if n.book.turnedAway == b.turnedAway { assert Balanced(n.book, enqueued, r, buffered, d); }
      else { OtherTurnedAwayBalances(b, t, n.book, enqueued, d, r, buffered); }
      if items != [] { OfferBalances(n.book, enqueued, items[0], r, buffered, d); }
    }
  }

  lemma ShapesSurviveArrival(requests: seq<Arrival>, more: seq<Arrival>, d: nat, r: Reader, h: Handshake)
    requires ReaderShape(requests, d, r)
    ensures ReaderShape(requests + more, d, r)
    ensures HandshakeShape(requests, d, r, h) ==> HandshakeShape(requests + more, d, r, h)
  {
    assert forall req: Request :: Plain(requests, d, req) ==> Plain(requests + more, d, req);
  }

  lemma ClientStepSparesFlow(s: System, c: nat, a: ClientAction, d: nat)
    requires FlowInv(s) && ClientEnabled(s, c, a) && d != c && d in s.readers
    ensures Flow(ClientStep(s, c, a), d)
  {
    var n, t := ClientStep(s, c, a), TicketOf(s.readers[c]);
    ClientMindsOwnBusiness(s, c, a);
    ClientLeavesOthersAlone(s, c, a);
    var more, items :| OwnBusiness(s, n, c, t, more, items);
    assert Flow(s, d) && Flow(s, c);
    if d in s.shared.handshakes {
      ShapesSurviveArrival(s.book.requests, more, d, s.readers[d], s.shared.handshakes[d]);
      OwnBusinessBalances(s, n, c, t, more, items, d, s.readers[d], s.shared.handshakes[d].buffered);
    } else {
      ShapesSurviveArrival(s.book.requests, more, d, s.readers[d], Handshake(0, false, false, []));
    }
  }

  lemma ClientStepKeepsFlowInv(s: System, c: nat, a: ClientAction)
    requires FlowInv(s) && ClientEnabled(s, c, a)
    ensures FlowInv(ClientStep(s, c, a))
  {
    hide ClientStep, Accepted, Queued;
    var n, t := ClientStep(s, c, a), TicketOf(s.readers[c]);
    ClientMindsOwnBusiness(s, c, a);
    ClientLeavesOthersAlone(s, c, a);
    var more, items :| OwnBusiness(s, n, c, t, more, items);
    assert Flow(s, c);
    forall d | d in n.readers ensures Flow(n, d) {
      if d == c { ClientStepKeepsFlow(s, c, a); } else { ClientStepSparesFlow(s, c, a, d); }
    }
  }

  // ----- the other tasks

  /** A step that touches neither readers nor buffers, and offers nothing on a request's
      behalf. */
  ghost predicate SparesFlow(s: System, n: System) {
    && n.readers == s.readers && n.shared.handshakes == s.shared.handshakes
    && n.shared.nextClient == s.shared.nextClient
    && n.book.requests == s.book.requests && n.book.turnedAway == s.book.turnedAway
    && (n.queue.enqueued == s.queue.enqueued ||
        n.queue.enqueued == s.queue.enqueued + [Item(FromProbe, ProbeMessage(s.nextProbe))])
  }

  lemma OtherTasksSpareFlow(s: System, l: Label)
    requires Enabled(s, l) && !l.ByClient? && !l.Connect?
    ensures SparesFlow(s, Apply(s, l))
  {
    match l
    case ByManager(a) => ManagerStepFrame(s, a);
    case ByRouter(a) => RouterStepFrame(s, a);
    case ByReaper(a) => ReaperStepFrame(s, a);
    case _ =>
  }

  lemma SparingKeepsFlowOf(s: System, n: System, c: nat)
    requires Flow(s, c) && SparesFlow(s, n)
    ensures Flow(n, c)
  {
    if c in s.shared.handshakes && n.queue.enqueued != s.queue.enqueued {
      OfferBalances(s.book, s.queue.enqueued, Item(FromProbe, ProbeMessage(s.nextProbe)), s.readers[c],
                    s.shared.handshakes[c].buffered, c);
    }
  }

  lemma SparingKeepsFlow(s: System, n: System)
    requires FlowInv(s) && SparesFlow(s, n)
    ensures FlowInv(n)
  {
    forall c | c in n.readers ensures Flow(n, c) {
      SparingKeepsFlowOf(s, n, c);
    }
  }

  lemma {:induction false} NobodyYet(
    requests: seq<Arrival>, away: set<nat>, enqueued: seq<Item>, all: seq<Arrival>, c: nat)
    requires forall t :: 0 <= t < |requests| ==> requests[t].client != c
    requires forall t :: 0 <= t < |all| ==> all[t].client != c
    ensures Accepted(requests, away, c) == [] && Queued(enqueued, all, c) == []
    decreases |requests| + |enqueued|
  {
    if requests != [] { NobodyYet(requests[..|requests| - 1], away, enqueued, all, c); }
    else if enqueued != [] { NobodyYet(requests, away, enqueued[..|enqueued| - 1], all, c); }
  }

  lemma ConnectKeepsFlow(s: System)
    requires FlowInv(s)
    ensures FlowInv(Apply(s, Connect))
  {
    var n, c := Apply(s, Connect), s.shared.nextClient;
    NobodyYet(s.book.requests, s.book.turnedAway, s.queue.enqueued, s.book.requests, c);
    forall d | d in n.readers ensures Flow(n, d) {
      if d != c { assert Flow(s, d); }
    }
  }

  lemma StepKeepsFlow(s: System, l: Label)
    requires FlowInv(s) && Enabled(s, l)
    ensures FlowInv(Apply(s, l))
  {
    match l
    case Connect => ConnectKeepsFlow(s);
    case ByClient(c, a) => ClientStepKeepsFlowInv(s, c, a);
    case _ => OtherTasksSpareFlow(s, l); SparingKeepsFlow(s, Apply(s, l));
  }

  lemma {:induction false} RunKeepsFlow(s: System, labels: seq<Label>)
    requires FlowInv(s) && IsRun(s, labels)
    ensures FlowInv(Final(s, labels))
    decreases |labels|
  {
    hide Enabled, Apply, FlowInv;
    if labels != [] {
      StepKeepsFlow(s, labels[0]);
      RunKeepsFlow(Apply(s, labels[0]), labels[1..]);
    }
  }

  // ----- theorems

  /** Buffering refines direct forwarding. In every run, for every registered client, the
      requests the daemon accepted from it are, in the order the client sent them, those
      already queued for the child followed by those still on their way; once the handshake
      is complete the buffer is empty, and whenever the reader is then idle everything
      accepted has been queued. */
  lemma BufferingRefinesForwarding(s: System, labels: seq<Label>, c: nat)
    requires Initial(s) && IsRun(s, labels)
    requires c in Final(s, labels).shared.handshakes
    ensures var n := Final(s, labels);
      var accepted := Accepted(n.book.requests, n.book.turnedAway, c);
      var queued := Queued(n.queue.enqueued, n.book.requests, c);
      var h := n.shared.handshakes[c];
      && c in n.readers
      && accepted == queued + InFlight(n.readers[c], h.buffered)
      && (h.initialized ==> h.buffered == [])
      && (h.initialized && n.readers[c].Idle? ==> accepted == queued)
  {
    hide Enabled, Apply, IsRun, Final;
    RunKeepsFlow(s, labels);
    assert Flow(Final(s, labels), c);
  }
}
