/** Whatever ids the child emits, a client only ever sees its own request ids. */
module Isolation {
  import opened Wrappers
  import opened Json
  import opened Shared
  import opened Protocol
  import opened Ledger
  import opened Frames
  import Ids
  import Text

  /** The local id that answers to request `t` of client `c` must carry. */
  predicate IdOf(requests: seq<Arrival>, t: nat, c: nat, id: Value) {
    From(requests, t, c) && Get(requests[t].body, "id") == Some(id)
  }

  predicate IsCopy(requests: seq<Arrival>, req: Request) {
    req.ticket < |requests| && requests[req.ticket].body == req.body
  }

  predicate DeliveryOk(requests: seq<Arrival>, c: nat, d: Delivery) {
    match d
    case Broadcast(msg) => IsBroadcast(msg)
    case Notice(msg) => Get(msg, "id") == Some(Null)
    case Reply(t, msg) => Get(msg, "id").Some? && IdOf(requests, t, c, Get(msg, "id").value)
    case Failure(t, msg) => Get(msg, "id").Some? && IdOf(requests, t, c, Get(msg, "id").value)
  }

  ghost predicate OutboxOk(requests: seq<Arrival>, outbox: map<nat, seq<Delivery>>) {
    forall c, k :: c in outbox && 0 <= k < |outbox[c]| ==> DeliveryOk(requests, c, outbox[c][k])
  }

  predicate OwedOk(requests: seq<Arrival>, o: Owed) {
    IdOf(requests, o.ticket, o.client, o.localId)
  }

  ghost predicate ReaderOk(requests: seq<Arrival>, r: Reader) {
    && (forall i :: 0 <= i < |Held(r)| ==> IsCopy(requests, Held(r)[i]))
    && (r.Noted? ==> !IsRequest(r.msg, r.tooLarge))
  }

  ghost predicate ReadersOk(requests: seq<Arrival>, readers: map<nat, Reader>) {
    forall c :: c in readers ==> ReaderOk(requests, readers[c])
  }

  ghost predicate BuffersOk(requests: seq<Arrival>, handshakes: map<nat, Handshake>) {
    forall c, i :: c in handshakes && 0 <= i < |handshakes[c].buffered| ==> IsCopy(requests, handshakes[c].buffered[i])
  }

  ghost predicate PendingOk(requests: seq<Arrival>, pending: map<string, Pending>) {
    forall g :: g in pending ==> IdOf(requests, pending[g].ticket, pending[g].client, pending[g].localId)
  }

  ghost predicate AllHaveIds(requests: seq<Arrival>) {
    forall t :: 0 <= t < |requests| ==> Get(requests[t].body, "id").Some?
  }

  ghost predicate OwedsOk(requests: seq<Arrival>, owed: seq<Owed>) {
    forall i :: 0 <= i < |owed| ==> OwedOk(requests, owed[i])
  }

  predicate RouterOk(requests: seq<Arrival>, router: Router) {
    !router.Listening? ==>
      router.msg.Obj? && IdOf(requests, router.entry.ticket, router.entry.client, router.entry.localId)
  }

  ghost predicate IsolationInv(s: System) {
    && AllHaveIds(s.book.requests)
    && ReadersOk(s.book.requests, s.readers)
    && BuffersOk(s.book.requests, s.shared.handshakes)
    && PendingOk(s.book.requests, s.shared.pending)
    && OwedsOk(s.book.requests, s.shared.waiting)
    && OwedsOk(s.book.requests, s.reaping.hand)
    && RouterOk(s.book.requests, s.routing.router)
    && (s.shared.cached.Some? ==> s.shared.cached.value.Obj?)
    && OutboxOk(s.book.requests, s.shared.outbox)
  }

  lemma PushKeepsOk(requests: seq<Arrival>, st: State, c: nat, d: Delivery)
    requires OutboxOk(requests, st.outbox) && DeliveryOk(requests, c, d)
    ensures OutboxOk(requests, Push(st, c, d).outbox)
  {
  }

  lemma {:induction false} PushAllKeepsOk(requests: seq<Arrival>, st: State, items: seq<(nat, Delivery)>)
    requires OutboxOk(requests, st.outbox)
    requires forall i :: 0 <= i < |items| ==> DeliveryOk(requests, items[i].0, items[i].1)
    ensures OutboxOk(requests, PushAll(st, items).outbox)
    ensures PushAll(st, items) == st.(outbox := PushAll(st, items).outbox)
    decreases |items|
  {
    if items != [] {
      PushKeepsOk(requests, st, items[0].0, items[0].1);
      PushAllKeepsOk(requests, Push(st, items[0].0, items[0].1), items[1..]);
    }
  }

  /** More arrivals do not change what was said about earlier ones. */
  lemma ArrivalKeepsOk(s: System, arrival: Arrival)
    requires IsolationInv(s) && Get(arrival.body, "id").Some?
    ensures IsolationInv(s.(book := s.book.(requests := s.book.requests + [arrival])))
  {
    var more := s.book.requests + [arrival];
    assert forall t: nat, c: nat, id: Value :: IdOf(s.book.requests, t, c, id) ==> IdOf(more, t, c, id);
    assert forall req: Request :: IsCopy(s.book.requests, req) ==> IsCopy(more, req);
    assert forall o: Owed :: OwedOk(s.book.requests, o) ==> OwedOk(more, o);
    assert forall c: nat, d: Delivery :: DeliveryOk(s.book.requests, c, d) ==> DeliveryOk(more, c, d);
    assert forall r: Reader :: ReaderOk(s.book.requests, r) ==> ReaderOk(more, r);
  }

  lemma ReceiveKeepsIsolation(s: System, c: nat, msg: Value, tooLarge: bool)
    requires IsolationInv(s) && ClientEnabled(s, c, Receive(msg, tooLarge))
    ensures IsolationInv(ReceiveStep(s, c, msg, tooLarge))
  {
    if IsRequest(msg, tooLarge) { ArrivalKeepsOk(s, Arrival(c, msg, tooLarge)); }
  }

  /** A reader that holds nothing it did not hold before is still in order. */
  lemma ReaderKeepsCopies(requests: seq<Arrival>, readers: map<nat, Reader>, c: nat, r: Reader)
    requires ReadersOk(requests, readers) && c in readers && !r.Noted?
    requires Held(r) == Held(readers[c]) || (Held(readers[c]) != [] && Held(r) == Held(readers[c])[1..])
    ensures ReadersOk(requests, readers[c := r])
  {
    assert ReaderOk(requests, readers[c]);
  }

  lemma QuietKeepsIsolation(s: System, c: nat, a: ClientAction)
    requires IsolationInv(s) && ClientEnabled(s, c, a) && IsQuiet(a)
    ensures IsolationInv(ClientStep(s, c, a))
  {
    ReaderKeepsCopies(s.book.requests, s.readers, c, ClientStep(s, c, a).readers[c]);
  }

  /** The first request a reader holds is a faithful copy of one its client sent. */
  predicate HeadOk(s: System, c: nat) {
    c in s.readers && Held(s.readers[c]) != [] ==>
      var req := Held(s.readers[c])[0];
      IsCopy(s.book.requests, req) && IdOf(s.book.requests, req.ticket, c, LocalId(req.body))
  }

  lemma HeadIsCopy(s: System, c: nat)
    requires LedgerInv(s) && IsolationInv(s)
    ensures HeadOk(s, c)
  {
    if c in s.readers && Held(s.readers[c]) != [] {
      HeadIsOwn(s, c);
      assert ReaderOk(s.book.requests, s.readers[c]);
      assert IsCopy(s.book.requests, Held(s.readers[c])[0]);
    }
  }

  lemma AnswerKeepsIsolation(s: System, c: nat, r: Reader, d: Delivery, n: System)
    requires IsolationInv(s) && c in s.readers && Held(s.readers[c]) != [] && !r.Noted?
    requires Held(r) == Held(s.readers[c])[1..] && DeliveryOk(s.book.requests, c, d)
    requires n == s.(shared := Push(s.shared, c, d), readers := s.readers[c := r], book := n.book)
    requires n.book.requests == s.book.requests
    ensures IsolationInv(n)
  {
    PushKeepsOk(s.book.requests, s.shared, c, d);
    ReaderKeepsCopies(s.book.requests, s.readers, c, r);
  }

  lemma FilingKeepsIsolation(s: System, c: nat, isInitialize: bool, r: Reader, n: System)
    requires IsolationInv(s) && c in s.readers && Held(s.readers[c]) != [] && !r.Noted?
    requires var req := Held(s.readers[c])[0];
      && IdOf(s.book.requests, req.ticket, c, LocalId(req.body))
      && Held(r) == Held(s.readers[c])[1..]
      && n == s.(shared := File(s.shared, c, req, isInitialize, s.now), readers := s.readers[c := r],
                 book := n.book)
      && n.book.requests == s.book.requests
    ensures IsolationInv(n)
  {
    ReaderKeepsCopies(s.book.requests, s.readers, c, r);
  }

  lemma RejectKeepsIsolation(s: System, c: nat)
    requires HeadOk(s, c) && IsolationInv(s) && ClientEnabled(s, c, RejectTooLarge)
    ensures IsolationInv(RejectTooLargeStep(s, c))
  {
    match s.readers[c]
    case Asked(req, _) =>
      AnswerKeepsIsolation(s, c, Idle, Failure(req.ticket, ErrorResponse(LocalId(req.body), TOO_LARGE)),
                           RejectTooLargeStep(s, c));
    case Noted(msg, _) =>
      assert ReaderOk(s.book.requests, s.readers[c]);
      PushKeepsOk(s.book.requests, s.shared, c, Notice(ErrorResponse(LocalId(msg), TOO_LARGE)));
      ReaderKeepsCopies(s.book.requests, s.readers, c, Idle);
  }

  lemma MarkingKeepsIsolation(s: System, c: nat)
    requires IsolationInv(s)
    ensures IsolationInv(s.(shared := MarkInitializePending(s.shared, c)))
  {
  }

  lemma InitializeKeepsIsolation(s: System, c: nat)
    requires HeadOk(s, c) && IsolationInv(s) && ClientEnabled(s, c, InitializeRequest)
    ensures IsolationInv(InitializeStep(s, c))
  {
    MarkingKeepsIsolation(s, c);
    var m := s.(shared := MarkInitializePending(s.shared, c));
    var req, n := s.readers[c].req, InitializeStep(s, c);
    assert Held(m.readers[c])[1..] == [];
    if s.shared.cached.Some? {
      AnswerKeepsIsolation(m, c, Idle, Reply(req.ticket, SetId(s.shared.cached.value, LocalId(req.body))), n);
    } else if s.shared.initializing {
      ReaderKeepsCopies(s.book.requests, s.readers, c, Idle);
    } else if Overloaded(s.shared) {
      AnswerKeepsIsolation(m, c, Idle, Failure(req.ticket, ErrorResponse(LocalId(req.body), OVERLOADED)), n);
    } else {
      FilingKeepsIsolation(m, c, true, n.readers[c], n);
    }
  }

  lemma ForwardKeepsIsolation(s: System, c: nat)
    requires HeadOk(s, c) && IsolationInv(s) && ClientEnabled(s, c, ForwardNext)
    ensures IsolationInv(ForwardStep(s, c))
  {
    ForwardShape(s, c);
    var req, n := s.readers[c].todo[0], ForwardStep(s, c);
    if Overloaded(s.shared) {
      AnswerKeepsIsolation(s, c, n.readers[c], Failure(req.ticket, ErrorResponse(LocalId(req.body), OVERLOADED)), n);
    } else {
      FilingKeepsIsolation(s, c, false, n.readers[c], n);
    }
  }

  lemma ForwardShape(s: System, c: nat)
    requires ClientEnabled(s, c, ForwardNext)
    ensures var req, n := s.readers[c].todo[0], ForwardStep(s, c);
      && Held(s.readers[c]) != [] && Held(s.readers[c])[0] == req
      && c in n.readers && !n.readers[c].Noted? && Held(n.readers[c]) == Held(s.readers[c])[1..]
      && n.book.requests == s.book.requests
      && n == s.(shared :=
                   if Overloaded(s.shared) then RejectOverload(s.shared, c, req)
                   else File(s.shared, c, req, false, s.now),
                 readers := s.readers[c := n.readers[c]], book := n.book)
  {
  }

  lemma UnregisterKeepsIsolation(s: System, c: nat)
    requires IsolationInv(s)
    ensures IsolationInv(UnregisterStep(s, c))
  {
    WaitersExceptKept(s.shared.waiting, c);
    var kept := WaitersExcept(s.shared.waiting, c);
    assert forall i :: 0 <= i < |kept| ==> kept[i] in kept;
  }

  lemma LeaveKeepsIsolation(s: System, c: nat)
    requires IsolationInv(s)
    ensures IsolationInv(LeaveStep(s, c))
  {
    UnregisterKeepsIsolation(s, c);
    assert ReaderOk(s.book.requests, Left);
  }

  lemma HandoverKeepsIsolation(s: System, c: nat, a: ClientAction)
    requires HeadOk(s, c) && IsolationInv(s) && ClientEnabled(s, c, a)
    requires a.FinishHandshake? || a.BufferRequest? || a.ReportTimeout?
    ensures IsolationInv(ClientStep(s, c, a))
  {
    match a
    case ReportTimeout =>
      ReaderKeepsCopies(s.book.requests, s.readers, c, Leaving);
      PushKeepsOk(s.book.requests, s.shared, c, Notice(ErrorResponse(Null, HANDSHAKE_LATE)));
    case BufferRequest =>
      ReaderKeepsCopies(s.book.requests, s.readers, c, Idle);
    case FinishHandshake =>
  }

  lemma ClientStepKeepsIsolation(s: System, c: nat, a: ClientAction)
    requires LedgerInv(s) && IsolationInv(s) && ClientEnabled(s, c, a)
    ensures IsolationInv(ClientStep(s, c, a))
  {
    hide IsolationInv, LedgerInv;
    HeadIsCopy(s, c);
    match a
    case Receive(msg, tooLarge) => ReceiveKeepsIsolation(s, c, msg, tooLarge);
    case RejectTooLarge => RejectKeepsIsolation(s, c);
    case InitializeRequest => InitializeKeepsIsolation(s, c);
    case ForwardNext => ForwardKeepsIsolation(s, c);
    case LeaveClient => LeaveKeepsIsolation(s, c);
    case WriterGone => UnregisterKeepsIsolation(s, c);
    case FinishHandshake => HandoverKeepsIsolation(s, c, a);
    case BufferRequest => HandoverKeepsIsolation(s, c, a);
    case ReportTimeout => HandoverKeepsIsolation(s, c, a);
    case _ => QuietKeepsIsolation(s, c, a);
  }

  lemma OwedFailuresOk(requests: seq<Arrival>, owed: seq<Owed>, reason: string)
    requires forall i :: 0 <= i < |owed| ==> OwedOk(requests, owed[i])
    ensures forall i :: 0 <= i < |owed| ==>
      DeliveryOk(requests, Failures(owed, reason)[i].0, Failures(owed, reason)[i].1)
  {
  }

  lemma RouteKeepsIsolation(s: System)
    requires IsolationInv(s) && RouterEnabled(s, Route)
    ensures IsolationInv(RouteStep(s))
  {
  }

  lemma StoreKeepsIsolation(s: System)
    requires IsolationInv(s) && RouterEnabled(s, StoreReply)
    ensures IsolationInv(StoreReplyStep(s))
  {
    var msg := s.routing.router.msg;
    var st := s.shared.(cached := Some(msg), initializing := false, waiting := []);
    PushAllKeepsOk(s.book.requests, st, Replies(s.shared.waiting, msg));
  }

  lemma AnswerInHandKeepsIsolation(s: System, a: RouterAction)
    requires IsolationInv(s) && RouterEnabled(s, a) && (a.LookUpClient? || a.DeliverReply?)
    ensures IsolationInv(RouterStep(s, a))
  {
  }

  lemma ResetKeepsIsolation(s: System, order: seq<string>)
    requires IsolationInv(s) && RouterEnabled(s, HandleReset(order))
    ensures IsolationInv(HandleResetStep(s, order))
  {
    var owed, waiting, requests := OwedList(s.shared.pending, order), s.shared.waiting, s.book.requests;
    OwedFailuresOk(requests, owed, RESTARTED);
    PushAllKeepsOk(requests, Drained(s.shared), Failures(owed, RESTARTED));
    OwedFailuresOk(requests, waiting, RESTARTED);
    PushAllKeepsOk(requests, PushAll(Drained(s.shared), Failures(owed, RESTARTED)), Failures(waiting, RESTARTED));
  }

  lemma RouterStepKeepsIsolation(s: System, a: RouterAction)
    requires IsolationInv(s) && RouterEnabled(s, a)
    ensures IsolationInv(RouterStep(s, a))
  {
    match a
    case Route => RouteKeepsIsolation(s);
    case StoreReply => StoreKeepsIsolation(s);
    case HandleReset(order) => ResetKeepsIsolation(s, order);
    case _ => AnswerInHandKeepsIsolation(s, a);
  }

  lemma ReaperStepKeepsIsolation(s: System, a: ReaperAction)
    requires IsolationInv(s) && ReaperEnabled(s, a)
    ensures IsolationInv(ReaperStep(s, a))
  {
    if a.ReportReaped? {
      OwedFailuresOk(s.book.requests, s.reaping.hand, TIMED_OUT);
      PushAllKeepsOk(s.book.requests, s.shared, Failures(s.reaping.hand, TIMED_OUT));
    }
  }

  lemma ManagerStepKeepsIsolation(s: System, a: ManagerAction)
    requires IsolationInv(s) && ManagerEnabled(s, a)
    ensures IsolationInv(ManagerStep(s, a))
  {
    hide ManagerStep, ManagerEnabled, OutboxOk, ReadersOk, BuffersOk, PendingOk, OwedsOk, AllHaveIds, RouterOk;
    ManagerStepFrame(s, a);
    ManagerKeepsOrClears(s, a);
  }

  lemma ManagerKeepsOrClears(s: System, a: ManagerAction)
    requires ManagerEnabled(s, a)
    ensures var n := ManagerStep(s, a);
      && (n.shared.cached == s.shared.cached || n.shared.cached == None)
      && n.routing.router == s.routing.router
  {
  }

  lemma StepKeepsIsolation(s: System, l: Label)
    requires LedgerInv(s) && IsolationInv(s) && Enabled(s, l)
    ensures IsolationInv(Apply(s, l))
  {
    match l
    case ByClient(c, a) => ClientStepKeepsIsolation(s, c, a);
    case ByManager(a) => ManagerStepKeepsIsolation(s, a);
    case ByRouter(a) => RouterStepKeepsIsolation(s, a);
    case ByReaper(a) => ReaperStepKeepsIsolation(s, a);
    case _ =>
  }

  lemma {:induction false} RunKeepsIsolation(s: System, labels: seq<Label>)
    requires LedgerInv(s) && IsolationInv(s) && IsRun(s, labels)
    ensures IsolationInv(Final(s, labels))
    decreases |labels|
  {
    hide Enabled, Apply, IsolationInv;
    if labels != [] {
      StepKeepsIsolation(s, labels[0]);
      StepKeepsLedger(s, labels[0]);
      RunKeepsIsolation(Apply(s, labels[0]), labels[1..]);
    }
  }

  // ----- theorems

  /** In every run, whatever ids the child emits, an answer on a client's channel carries the
      id of the very request it answers, which is one that client sent; a message with a null
      id that is not a broadcast is a complaint about no request; and what is broadcast has no
      id or a null one. */
  lemma ClientsSeeOnlyTheirOwnIds(s: System, labels: seq<Label>, c: nat, k: nat)
    requires Initial(s) && IsRun(s, labels)
    requires k < |Sent(Final(s, labels).shared.outbox, c)|
    ensures var n := Final(s, labels);
      match Sent(n.shared.outbox, c)[k]
      case Broadcast(msg) => IsBroadcast(msg)
      case Notice(msg) => Get(msg, "id") == Some(Null)
      case Reply(t, msg) => Get(msg, "id").Some? && IdOf(n.book.requests, t, c, Get(msg, "id").value)
      case Failure(t, msg) => Get(msg, "id").Some? && IdOf(n.book.requests, t, c, Get(msg, "id").value)
  {
    hide Enabled, Apply, IsRun, Final;
    RunKeepsIsolation(s, labels);
    var n := Final(s, labels);
    var d := Sent(n.shared.outbox, c)[k];
    assert DeliveryOk(n.book.requests, c, d);
    if d.Reply? || d.Failure? { assert From(n.book.requests, d.ticket, c); }
  }

  lemma IntegersAreNeverPending(s: System, i: int)
    requires LedgerInv(s)
    ensures Text.SignedDecimal(i) !in s.shared.pending
  {
    if Text.SignedDecimal(i) in s.shared.pending {
      var c: nat, m: nat :| m < s.shared.nextGlobal && Text.SignedDecimal(i) == Ids.GlobalId(c, m);
      Ids.IdSpacesDisjoint(c, m, 0, i);
    }
  }

  /** A child message whose id is a heartbeat id or an integer reaches no client and takes
      nothing off the pending table. */
  lemma ForeignIdsMatchNothing(s: System, labels: seq<Label>, n: nat, i: int)
    requires Initial(s) && IsRun(s, labels)
    requires RouterEnabled(Final(s, labels), Route)
    requires var id := Get(Final(s, labels).routing.events[0].msg, "id");
             id == Some(Str(Ids.HeartbeatId(n))) || id == Some(Int(i))
    ensures var f := Final(s, labels); RouteStep(f) == f.(routing := f.routing.(events := f.routing.events[1..]))
  {
    hide Enabled, Apply, IsRun, Final;
    var f := Final(s, labels);
    assert Text.SignedDecimal(i) !in f.shared.pending by {
      RunKeepsLedger(s, labels);
      IntegersAreNeverPending(f, i);
    }
    Ids.IdSpacesDisjoint(0, 0, n, i);
  }
}
