/** Requests are held back until the handshake is over: until then the child sees nothing of a
    client but its initialize requests and notifications, and there is a time limit. */
module Holding {
  import opened Wrappers
  import opened Json
  import opened Shared
  import opened Protocol
  import opened Effects
  import opened Frames
  import opened Forwarding
  import Filing
  import Ledger
  import Renumbering

  /** As long as its handshake is open, none of the client's requests has gone any further than
      its buffer, except for an initialize. */
  ghost predicate HoldsBack(s: System, c: nat) {
    c in s.shared.handshakes ==>
      && !s.shared.handshakes[c].initialized
      && NoneQueued(s.queue.enqueued, s.book.requests, c)
      && OnlyInitializeFiled(s.shared.pending, s.book.requests, c)
      && NoneTurnedAway(s.book.turnedAway, s.book.requests, c)
  }

  ghost predicate NoneQueued(enqueued: seq<Item>, requests: seq<Arrival>, c: nat) {
    forall i :: 0 <= i < |enqueued| && enqueued[i].origin.FromRequest? ==>
      !Forwardable(requests, enqueued[i].origin.ticket, c)
  }

  ghost predicate OnlyInitializeFiled(pending: map<string, Pending>, requests: seq<Arrival>, c: nat) {
    forall g :: g in pending && pending[g].client == c ==>
      pending[g].ticket < |requests| && Method(requests[pending[g].ticket].body) == "initialize"
  }

  ghost predicate NoneTurnedAway(away: set<nat>, requests: seq<Arrival>, c: nat) {
    forall t :: t in away ==> !Forwardable(requests, t, c)
  }

  // ----- steps

  /** All tickets in use have arrived. */
  ghost predicate TicketsArrived(s: System) {
    && (forall i :: 0 <= i < |s.queue.enqueued| && s.queue.enqueued[i].origin.FromRequest? ==>
          s.queue.enqueued[i].origin.ticket < |s.book.requests|)
    && (forall t :: t in s.book.turnedAway ==> t < |s.book.requests|)
  }

  /** What a step of client `d` adds for the child is about one of its own requests. */
  ghost predicate AddsOwn(s: System, n: System, d: nat, first: Option<Request>) {
    && s.book.requests <= n.book.requests
    && (n.queue.enqueued == s.queue.enqueued ||
        exists item: Item :: n.queue.enqueued == s.queue.enqueued + [item] &&
          (item.origin.FromRequest? ==> first.Some? && item.origin.ticket == first.value.ticket))
    && (n.book.turnedAway == s.book.turnedAway ||
        (first.Some? && n.book.turnedAway == s.book.turnedAway + {first.value.ticket}))
    && (forall g :: g in n.shared.pending ==>
          || (g in s.shared.pending && n.shared.pending[g] == s.shared.pending[g])
          || (first.Some? && n.shared.pending[g].client == d && n.shared.pending[g].ticket == first.value.ticket))
  }

  /** The request a reader is about to file or to send. */
  function First(r: Reader): Option<Request> {
    match r
    case Asked(req, _) => Some(req)
    case Flushing(todo) => if todo == [] then None else Some(todo[0])
    case Sending(req, _, _) => Some(req)
    case _ => None
  }

  lemma ClientTurnsAway(s: System, d: nat, a: ClientAction)
    requires ClientEnabled(s, d, a)
    ensures var n, first := ClientStep(s, d, a), First(s.readers[d]);
      && s.book.requests <= n.book.requests
      && (n.book.turnedAway == s.book.turnedAway ||
          (first.Some? && n.book.turnedAway == s.book.turnedAway + {first.value.ticket}))
  {
    hide ErrorResponse, SetId, LocalId, Sent, Push, Initialize, File, RejectOverload, Unregister, BufferMessage,
         CompleteHandshake;
  }

  lemma ClientAddsOwn(s: System, d: nat, a: ClientAction)
    requires ClientEnabled(s, d, a)
    ensures AddsOwn(s, ClientStep(s, d, a), d, First(s.readers[d]))
  {
    hide ClientStep;
    ClientTurnsAway(s, d, a);
    Filing.ClientStepEnqueues(s, d, a);
    if Renumbering.Files(a) { Filing.FilingTable(s, d, a); } else { Filing.OthersOnlyRemove(s, d, a); }
  }

  /** Looking at the handshake, and refusing what is too large, add nothing. */
  lemma ClientAddsNothing(s: System, d: nat, a: ClientAction)
    requires ClientEnabled(s, d, a) && (a.CheckHandshake? || a.RejectTooLarge? || a.WriterGone?)
    ensures AddsOwn(s, ClientStep(s, d, a), d, None)
  {
  }

  /** The first request in hand is none that has to wait. */
  ghost predicate FirstIsHarmless(s: System, d: nat, c: nat)
    requires d in s.readers
  {
    var first := First(s.readers[d]);
    first.Some? ==>
      && first.value.ticket < |s.book.requests| && !Forwardable(s.book.requests, first.value.ticket, c)
      && (d == c ==> Method(s.book.requests[first.value.ticket].body) == "initialize")
  }

  lemma FirstOfOther(s: System, d: nat, c: nat)
    requires Flow(s, d) && d != c
    ensures d in s.readers && FirstIsHarmless(s, d, c)
  {
  }

  lemma FirstOfOwn(s: System, c: nat, a: ClientAction)
    requires Flow(s, c) && c in s.shared.handshakes && !s.shared.handshakes[c].initialized && ClientEnabled(s, c, a)
    ensures FirstIsHarmless(s, c, c) || a.CheckHandshake? || a.RejectTooLarge? || a.WriterGone?
  {
    var r := s.readers[c];
    assert Front(r) == [];
    match r
    case Flushing(todo) => assert |Tickets(todo)| == |todo|;
    case _ =>
  }

  lemma KeepsWhatItHeld(s: System, n: System, c: nat, d: nat, first: Option<Request>)
    requires TicketsArrived(s) && AddsOwn(s, n, d, first)
    requires NoneQueued(s.queue.enqueued, s.book.requests, c) && NoneTurnedAway(s.book.turnedAway, s.book.requests, c)
    requires OnlyInitializeFiled(s.shared.pending, s.book.requests, c)
    requires first.Some? ==>
      && first.value.ticket < |s.book.requests| && !Forwardable(s.book.requests, first.value.ticket, c)
      && (d == c ==> Method(s.book.requests[first.value.ticket].body) == "initialize")
    ensures NoneQueued(n.queue.enqueued, n.book.requests, c) && NoneTurnedAway(n.book.turnedAway, n.book.requests, c)
    ensures OnlyInitializeFiled(n.shared.pending, n.book.requests, c)
  {
    assert forall t: nat :: t < |s.book.requests| ==>
      (Forwardable(n.book.requests, t, c) <==> Forwardable(s.book.requests, t, c));
  }

  /** A step other than the end of the handshake leaves it open, or removes it. */
  lemma ClientKeepsHandshakeOpen(s: System, d: nat, a: ClientAction, c: nat)
    requires ClientEnabled(s, d, a) && !(d == c && a.FinishHandshake?)
    ensures var before, after := s.shared.handshakes, ClientStep(s, d, a).shared.handshakes;
      c in after ==> c in before && after[c].initialized == before[c].initialized &&
                     after[c].connectedAt == before[c].connectedAt
  {
    hide ClientStep, ClientEnabled, Changed;
    ClientStepShared(s, d, a);
    ChangedKeepsHandshakeOpen(s.shared, d, s.now, ChangeBy(s.readers[d], a), c);
  }

  lemma ChangedKeepsHandshakeOpen(st: State, d: nat, now: nat, change: Change, c: nat)
    requires !(d == c && change.Completes?)
    ensures var before, after := st.handshakes, Changed(st, d, now, change).handshakes;
      c in after ==> c in before && after[c].initialized == before[c].initialized &&
                     after[c].connectedAt == before[c].connectedAt
  {
    hide Initialize, ErrorResponse, SetId, LocalId, Sent;
    if change.Initializes? { InitializeParts(st, d, change.req, now); }
  }

  lemma ClientStepHoldsBack(s: System, d: nat, a: ClientAction, c: nat)
    requires HoldsBack(s, c) && TicketsArrived(s) && FlowInv(s) && ClientEnabled(s, d, a)
    requires !(d == c && a.FinishHandshake?)
    ensures HoldsBack(ClientStep(s, d, a), c)
  {
    hide ClientStep, Flow, AddsOwn, First;
    var n := ClientStep(s, d, a);
    ClientKeepsHandshakeOpen(s, d, a, c);
    if c in n.shared.handshakes {
      assert Flow(s, d);
      if d != c { FirstOfOther(s, d, c); } else { FirstOfOwn(s, c, a); }
      if FirstIsHarmless(s, d, c) {
        ClientAddsOwn(s, d, a);
        KeepsWhatItHeld(s, n, c, d, First(s.readers[d]));
      } else {
        ClientAddsNothing(s, d, a);
        KeepsWhatItHeld(s, n, c, d, None);
      }
    }
  }

  lemma AllTicketsArrived(s: System)
    requires FlowInv(s)
    ensures TicketsArrived(s)
  {
  }

  lemma OtherStepHoldsBack(s: System, l: Label, c: nat)
    requires HoldsBack(s, c) && Enabled(s, l) && !l.ByClient? && !l.Connect?
    ensures HoldsBack(Apply(s, l), c)
  {
    hide Forwardable;
    match l
    case ByManager(a) => ManagerStepFrame(s, a);
    case ByRouter(a) => RouterStepFrame(s, a);
    case ByReaper(a) => ReaperStepFrame(s, a);
    case _ =>
  }

  lemma ConnectHoldsBack(s: System, c: nat)
    requires HoldsBack(s, c) && FlowInv(s) && Ledger.LedgerInv(s)
    ensures HoldsBack(Apply(s, Connect), c)
  {
    if c == s.shared.nextClient {
      assert forall t :: 0 <= t < |s.book.requests| ==> s.book.requests[t].client != c;
    }
  }

  lemma StepHoldsBack(s: System, l: Label, c: nat)
    requires HoldsBack(s, c) && FlowInv(s) && Ledger.LedgerInv(s) && Enabled(s, l) && l != ByClient(c, FinishHandshake)
    ensures HoldsBack(Apply(s, l), c)
  {
    hide HoldsBack, FlowInv, Ledger.LedgerInv;
    match l
    case Connect => ConnectHoldsBack(s, c);
    case ByClient(d, a) => AllTicketsArrived(s); ClientStepHoldsBack(s, d, a, c);
    case _ => OtherStepHoldsBack(s, l, c);
  }

  lemma {:induction false} RunHoldsBack(s: System, labels: seq<Label>, c: nat)
    requires HoldsBack(s, c) && FlowInv(s) && Ledger.LedgerInv(s) && IsRun(s, labels)
    requires ByClient(c, FinishHandshake) !in labels
    ensures HoldsBack(Final(s, labels), c)
    decreases |labels|
  {
    hide Enabled, Apply, HoldsBack, FlowInv, Ledger.LedgerInv;
    if labels != [] {
      assert labels[0] in labels && forall l :: l in labels[1..] ==> l in labels;
      StepHoldsBack(s, labels[0], c);
      StepKeepsFlow(s, labels[0]);
      Ledger.StepKeepsLedger(s, labels[0]);
      RunHoldsBack(Apply(s, labels[0]), labels[1..], c);
    }
  }

  // ----- what waits

  lemma {:induction false} NothingQueued(enqueued: seq<Item>, requests: seq<Arrival>, c: nat)
    requires NoneQueued(enqueued, requests, c)
    ensures Queued(enqueued, requests, c) == []
  {
    if enqueued != [] { NothingQueued(enqueued[..|enqueued| - 1], requests, c); }
  }

  lemma {:induction false} NothingRefused(all: seq<Arrival>, requests: seq<Arrival>, away: set<nat>, c: nat)
    requires NoneTurnedAway(away, all, c) && requests <= all
    ensures Accepted(requests, away, c) == Accepted(requests, {}, c)
  {
    if requests != [] {
      var t := |requests| - 1;
      assert Forwardable(requests, t, c) <==> Forwardable(all, t, c);
      NothingRefused(all, requests[..t], away, c);
    }
  }

  lemma InitiallyNothing(s: System, c: nat)
    requires Initial(s)
    ensures HoldsBack(s, c) && FlowInv(s) && Ledger.LedgerInv(s)
  {
  }

  lemma BufferHoldsAll(s: System, c: nat)
    requires HoldsBack(s, c) && Flow(s, c) && c in s.shared.handshakes
    ensures var buffered := s.shared.handshakes[c].buffered;
      && Tickets(buffered) + Back(s.readers[c]) == Accepted(s.book.requests, {}, c)
      && AllPlain(s.book.requests, c, buffered)
  {
    var r, buffered := s.readers[c], s.shared.handshakes[c].buffered;
    NothingQueued(s.queue.enqueued, s.book.requests, c);
    NothingRefused(s.book.requests, s.book.requests, s.book.turnedAway, c);
    assert Front(r) == [] && [] + (Front(r) + Tickets(buffered) + Back(r)) == Tickets(buffered) + Back(r);
  }

  /** In every run, as long as a client's handshake has not ended: none of its requests but an
      initialize has been sent to the child or been put on file for it, and none was refused.
      All of them are in its buffer, unchanged and in the order they came in, behind nothing else,
      once its reader has put the last one there. */
  lemma NothingPassesBeforeTheHandshake(s: System, labels: seq<Label>, c: nat)
    requires Initial(s) && IsRun(s, labels) && ByClient(c, FinishHandshake) !in labels
    requires c in Final(s, labels).shared.handshakes
    ensures var n := Final(s, labels);
      && NoneQueued(n.queue.enqueued, n.book.requests, c)
      && OnlyInitializeFiled(n.shared.pending, n.book.requests, c)
      && NoneTurnedAway(n.book.turnedAway, n.book.requests, c)
    ensures var n := Final(s, labels); var buffered := n.shared.handshakes[c].buffered;
      && c in n.readers && (n.readers[c].Idle? ==> Tickets(buffered) == Accepted(n.book.requests, {}, c))
      && forall i :: 0 <= i < |buffered| ==>
           buffered[i].ticket < |n.book.requests| && buffered[i].body == n.book.requests[buffered[i].ticket].body
  {
    InitiallyNothing(s, c);
    hide Enabled, Apply, IsRun, Final, Accepted;
    RunHoldsBack(s, labels, c);
    RunKeepsFlow(s, labels);
    var n := Final(s, labels);
    assert Flow(n, c);
    BufferHoldsAll(n, c);
    var tickets := Tickets(n.shared.handshakes[c].buffered);
    assert tickets + [] == tickets;
  }

  // ----- the time limit

  /** The handshake is still open and began at this time, or the client has gone. */
  ghost predicate OpenSince(s: System, c: nat, began: nat) {
    && c < s.shared.nextClient
    && (c in s.shared.handshakes ==>
          !s.shared.handshakes[c].initialized && s.shared.handshakes[c].connectedAt == began)
  }

  lemma StepKeepsOpenSince(s: System, l: Label, c: nat, began: nat)
    requires OpenSince(s, c, began) && Enabled(s, l) && l != ByClient(c, FinishHandshake)
    ensures OpenSince(Apply(s, l), c, began)
  {
    match l
    case ByClient(d, a) =>
      ClientKeepsHandshakeOpen(s, d, a, c);
      ClientStepTables(s, d, a);
    case ByManager(a) => ManagerStepFrame(s, a);
    case ByRouter(a) => RouterStepFrame(s, a);
    case ByReaper(a) => ReaperStepFrame(s, a);
    case _ =>
  }

  lemma {:induction false} RunKeepsOpenSince(s: System, labels: seq<Label>, c: nat, began: nat)
    requires OpenSince(s, c, began) && IsRun(s, labels) && ByClient(c, FinishHandshake) !in labels
    ensures OpenSince(Final(s, labels), c, began)
    decreases |labels|
  {
    hide Enabled, Apply, OpenSince;
    if labels != [] {
      assert labels[0] in labels && forall l :: l in labels[1..] ==> l in labels;
      StepKeepsOpenSince(s, labels[0], c, began);
      RunKeepsOpenSince(Apply(s, labels[0]), labels[1..], c, began);
    }
  }

  /** From any state, a client that connects and does not end its handshake can be thrown out by
      its reader, when that is idle, as soon as more than ten seconds have passed, and no sooner. */
  lemma HandshakeDeadline(s: System, more: seq<Label>)
    requires IsRun(Apply(s, Connect), more) && ByClient(s.shared.nextClient, FinishHandshake) !in more
    requires var n := Final(Apply(s, Connect), more);
      s.shared.nextClient in n.readers && n.readers[s.shared.nextClient].Idle?
    ensures var c, n := s.shared.nextClient, Final(Apply(s, Connect), more);
      ClientEnabled(n, c, NoticeTimeout) <==> c in n.shared.handshakes && n.now > s.now + 10_000
  {
    assert OpenSince(Apply(s, Connect), s.shared.nextClient, s.now);
    hide Enabled, Apply, IsRun, Final;
    RunKeepsOpenSince(Apply(s, Connect), more, s.shared.nextClient, s.now);
  }
}
