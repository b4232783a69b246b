/** Where answers come from: over every run, what a client is told in answer to a request is a
    message some child emitted under the id of that request. */
module Provenance {
  import opened Wrappers
  import opened Json
  import opened Shared
  import opened Protocol
  import opened Effects
  import opened Frames
  import opened Filing
  import Ids
  import Ledger
  import Isolation
  import Forwarding
  import Renumbering
  import Queueing
  import Generations

  // ----- what is claimed of an answer

  predicate IsInitialize(requests: seq<Arrival>, t: nat) {
    t < |requests| && Method(requests[t].body) == "initialize"
  }

  /** The request was handed to that child, under that id. */
  ghost predicate WrittenTo(attempts: seq<Attempt>, g: nat, t: nat, id: string) {
    exists i :: 0 <= i < |attempts| && attempts[i].generation == g &&
                attempts[i].item.origin == FromRequest(t) && RoutingKey(attempts[i].item.body) == Some(id)
  }

  /** All that the claim is judged by; `strict` when children are honest and handshake
      notifications plain. Every part of it only grows. */
  datatype World = World(requests: seq<Arrival>, past: Past, attempts: seq<Attempt>, strict: bool)

  function Now(s: System, past: Past): World {
    World(s.book.requests, past, s.child.attempts, s.config.honest && s.config.plainHandshakes)
  }

  ghost predicate Grows(w: World, v: World) {
    && w.requests <= v.requests && w.attempts <= v.attempts && w.strict == v.strict
    && w.past.emitted <= v.past.emitted && w.past.filed <= v.past.filed
  }

  /** Child `g` emitted the message under the id of request `t`, to which it had been given. */
  ghost predicate Came(w: World, g: nat, raw: Value, t: nat, id: string) {
    && (g, raw) in w.past.emitted && RoutingKey(raw) == Some(id) && (t, id) in w.past.filed
    && (w.strict ==> WrittenTo(w.attempts, g, t, id))
  }

  ghost predicate Answers(w: World, raw: Value, t: nat) {
    exists g, id :: Came(w, g, raw, t, id)
  }

  /** An answer to one initialize serves them all. */
  predicate Serves(requests: seq<Arrival>, t0: nat, t: nat) {
    t0 == t || (IsInitialize(requests, t) && IsInitialize(requests, t0))
  }

  ghost predicate Rightful(w: World, t: nat, msg: Value) {
    && t < |w.requests| && Get(w.requests[t].body, "id").Some?
    && exists raw, t0 :: Answers(w, raw, t0) && Serves(w.requests, t0, t) &&
                         OnlyIdDiffers(raw, msg, Get(w.requests[t].body, "id").value)
  }

  /** What the daemon itself has to complain about. */
  predicate IsReason(why: string) {
    || why == "request too large" || why == "mux overloaded (too many pending)"
    || why == "handshake timeout: initialize/initialized sequence not completed"
    || why == "request timeout" || why == "MCP server restarted"
  }

  /** A JSON-RPC error response, and by no means a result. */
  ghost predicate IsComplaint(msg: Value) {
    && Get(msg, "jsonrpc") == Some(Str("2.0")) && Get(msg, "result") == None && Get(msg, "id").Some?
    && exists why :: IsReason(why) &&
                     Get(msg, "error") == Some(Obj(map["code" := Int(-32000), "message" := Str(why)]))
  }

  lemma ErrorIsComplaint(id: Value, why: string)
    requires IsReason(why)
    ensures IsComplaint(ErrorResponse(id, why))
  {
    assert Get(ErrorResponse(id, why), "error") == Some(Obj(map["code" := Int(-32000), "message" := Str(why)]));
  }

  ghost predicate Sound(w: World, d: Delivery) {
    match d
    case Reply(t, msg) => Rightful(w, t, msg)
    case Failure(_, msg) => IsComplaint(msg)
    case Notice(msg) => IsComplaint(msg)
    case Broadcast(_) => true
  }

  // ----- the invariant

  ghost predicate AllSound(w: World, outbox: map<nat, seq<Delivery>>) {
    forall c, k :: c in outbox && 0 <= k < |outbox[c]| ==> Sound(w, outbox[c][k])
  }

  predicate RightKind(requests: seq<Arrival>, p: Pending) {
    p.ticket < |requests| && (p.isInitialize <==> IsInitialize(requests, p.ticket))
  }

  ghost predicate TableOk(requests: seq<Arrival>, pending: map<string, Pending>) {
    forall g :: g in pending ==> RightKind(requests, pending[g])
  }

  ghost predicate WaitersOk(requests: seq<Arrival>, waiting: seq<Owed>) {
    forall i :: 0 <= i < |waiting| ==> IsInitialize(requests, waiting[i].ticket)
  }

  ghost predicate CacheOk(w: World, cached: Option<Value>) {
    cached.Some? ==> exists t :: Answers(w, cached.value, t) && IsInitialize(w.requests, t)
  }

  ghost predicate RouterOk(w: World, router: Router) {
    !router.Listening? ==> Answers(w, router.msg, router.entry.ticket) && RightKind(w.requests, router.entry)
  }

  ghost predicate EventsEmitted(emitted: set<(nat, Value)>, events: seq<Event>) {
    forall i :: 0 <= i < |events| && events[i].Message? ==> (events[i].generation, events[i].msg) in emitted
  }

  ghost predicate StateOk(w: World, st: State) {
    && TableOk(w.requests, st.pending) && WaitersOk(w.requests, st.waiting)
    && CacheOk(w, st.cached) && AllSound(w, st.outbox)
  }

  ghost predicate Sources(w: World, st: State, r: Routing) {
    StateOk(w, st) && RouterOk(w, r.router) && EventsEmitted(w.past.emitted, r.events)
  }

  // ----- what only grows

  lemma AnswersStay(w: World, v: World, raw: Value, t: nat)
    requires Grows(w, v) && Answers(w, raw, t)
    ensures Answers(v, raw, t)
  {
    var g, id :| Came(w, g, raw, t, id);
    if w.strict {
      var i :| 0 <= i < |w.attempts| && w.attempts[i].generation == g &&
               w.attempts[i].item.origin == FromRequest(t) && RoutingKey(w.attempts[i].item.body) == Some(id);
      assert v.attempts[i] == w.attempts[i];
    }
    assert Came(v, g, raw, t, id);
  }

  lemma RepliesStay(w: World, v: World, d: Delivery)
    requires Grows(w, v) && Sound(w, d)
    ensures Sound(v, d)
  {
    if d.Reply? {
      var raw, t0 :| Answers(w, raw, t0) && Serves(w.requests, t0, d.ticket) &&
                     OnlyIdDiffers(raw, d.msg, Get(w.requests[d.ticket].body, "id").value);
      AnswersStay(w, v, raw, t0);
    }
  }

  lemma SourcesStay(w: World, v: World, st: State, r: Routing)
    requires Grows(w, v) && Sources(w, st, r)
    ensures Sources(v, st, r)
  {
    hide Answers, Rightful;
    forall raw, t | Answers(w, raw, t) ensures Answers(v, raw, t) { AnswersStay(w, v, raw, t); }
    forall d | Sound(w, d) ensures Sound(v, d) { RepliesStay(w, v, d); }
  }

  lemma AnswersAreObjects(w: World, raw: Value, t: nat)
    requires Answers(w, raw, t)
    ensures raw.Obj?
  {
  }

  // ----- sends

  lemma PushKeeps(w: World, st: State, c: nat, d: Delivery)
    requires StateOk(w, st) && Sound(w, d)
    ensures StateOk(w, Push(st, c, d))
  {
    hide Sound, Answers;
  }

  lemma {:induction false} PushAllKeeps(w: World, st: State, items: seq<(nat, Delivery)>)
    requires StateOk(w, st) && forall i :: 0 <= i < |items| ==> Sound(w, items[i].1)
    ensures StateOk(w, PushAll(st, items))
    decreases |items|
  {
    hide Sound, StateOk;
    if items != [] {
      PushKeeps(w, st, items[0].0, items[0].1);
      PushAllKeeps(w, Push(st, items[0].0, items[0].1), items[1..]);
    }
  }

  // ----- steps of a client

  /** What the region does is about a request of its kind. */
  ghost predicate ChangeOk(requests: seq<Arrival>, change: Change) {
    match change
    case Sends(d) => (d.Failure? || d.Notice?) && IsComplaint(d.msg)
    case Initializes(req) =>
      IsInitialize(requests, req.ticket) && requests[req.ticket].body == req.body && Get(req.body, "id").Some?
    case Forwards(req) => req.ticket < |requests| && !IsInitialize(requests, req.ticket)
    case _ => true
  }

  lemma InitializeKeepsState(w: World, st: State, c: nat, req: Request, now: nat)
    requires StateOk(w, st) && IsInitialize(w.requests, req.ticket) && w.requests[req.ticket].body == req.body
    requires Get(req.body, "id").Some?
    ensures StateOk(w, Initialize(st, c, req, now))
  {
    var marked := MarkInitializePending(st, c);
    assert StateOk(w, marked);
    if st.cached.Some? {
      var t :| Answers(w, st.cached.value, t) && IsInitialize(w.requests, t);
      assert Serves(w.requests, t, req.ticket);
      AnswersAreObjects(w, st.cached.value, t);
      SetIdReplacesOnlyId(st.cached.value, LocalId(req.body));
      assert Rightful(w, req.ticket, SetId(st.cached.value, LocalId(req.body)));
      PushKeeps(w, marked, c, Reply(req.ticket, SetId(st.cached.value, LocalId(req.body))));
    } else if !st.initializing && Overloaded(st) {
      ErrorIsComplaint(LocalId(req.body), OVERLOADED);
      PushKeeps(w, marked, c, Failure(req.ticket, ErrorResponse(LocalId(req.body), OVERLOADED)));
    }
  }

  lemma ForwardKeepsState(w: World, st: State, c: nat, req: Request, now: nat)
    requires StateOk(w, st) && req.ticket < |w.requests| && !IsInitialize(w.requests, req.ticket)
    ensures StateOk(w, Changed(st, c, now, Forwards(req)))
  {
    if Overloaded(st) {
      ErrorIsComplaint(LocalId(req.body), OVERLOADED);
      PushKeeps(w, st, c, Failure(req.ticket, ErrorResponse(LocalId(req.body), OVERLOADED)));
    }
  }

  lemma UnregisterKeepsState(w: World, st: State, c: nat)
    requires StateOk(w, st)
    ensures StateOk(w, Unregister(st, c))
  {
    var kept := WaitersExcept(st.waiting, c);
    WaitersExceptKept(st.waiting, c);
    assert forall i :: 0 <= i < |kept| ==> kept[i] in kept;
  }

  lemma ChangedKeepsState(w: World, st: State, c: nat, now: nat, change: Change)
    requires StateOk(w, st) && ChangeOk(w.requests, change)
    ensures StateOk(w, Changed(st, c, now, change))
  {
    match change
    case Sends(d) => PushKeeps(w, st, c, d);
    case Initializes(req) => InitializeKeepsState(w, st, c, req, now);
    case Forwards(req) => ForwardKeepsState(w, st, c, req, now);
    case Unregisters => UnregisterKeepsState(w, st, c);
    case _ =>
  }

  lemma ChangeIsOk(s: System, c: nat, a: ClientAction)
    requires ClientEnabled(s, c, a) && Forwarding.ReaderShape(s.book.requests, c, s.readers[c])
    requires Isolation.AllHaveIds(s.book.requests)
    ensures ChangeOk(s.book.requests, ChangeBy(s.readers[c], a))
  {
    var r := s.readers[c];
    if a.RejectTooLarge? { ErrorIsComplaint(LocalId(if r.Asked? then r.req.body else r.msg), TOO_LARGE); }
    if a.ReportTimeout? { ErrorIsComplaint(Null, HANDSHAKE_LATE); }
    hide IsComplaint;
  }

  lemma ClientStepKeepsSources(s: System, c: nat, a: ClientAction, w: World)
    requires Sources(w, s.shared, s.routing) && s.book.requests <= w.requests
    requires ClientEnabled(s, c, a) && Forwarding.ReaderShape(s.book.requests, c, s.readers[c])
    requires Isolation.AllHaveIds(s.book.requests)
    ensures var n := ClientStep(s, c, a); Sources(w, n.shared, n.routing)
  {
    hide ClientStep, ClientEnabled, StateOk;
    ChangeIsOk(s, c, a);
    ClientStepShared(s, c, a);
    ClientStepElsewhere(s, c, a);
    ChangedKeepsState(w, s.shared, c, s.now, ChangeBy(s.readers[c], a));
  }

  // ----- steps of the router

  /** With honest children, a message found on the pending table comes from a child that the
      request on file was written to. */
  lemma MatchWasWritten(s: System, past: Past, id: string)
    requires Filings(s, past) && PlainInv(s.readers, s.queue.enqueued)
    requires Queueing.QueueInv(s) && Generations.GenerationInv(s)
    requires s.routing.events != [] && s.routing.events[0].Message?
    requires RoutingKey(s.routing.events[0].msg) == Some(id) && id in s.shared.pending
    ensures WrittenTo(s.child.attempts, s.routing.events[0].generation, s.shared.pending[id].ticket, id)
  {
    var g, attempts, t := s.routing.events[0].generation, s.child.attempts, s.shared.pending[id].ticket;
    assert WasWritten(attempts, g, id);
    var i :| 0 <= i < |attempts| && attempts[i].generation == g && RoutingKey(attempts[i].item.body) == Some(id);
    AttemptIsQueued(s, i);
    var item := attempts[i].item;
    assert (t, id) in FiledNow(s.shared.pending);
    FiledItemIs(s.queue.enqueued, item, past.filed, s.shared.nextGlobal, t, id);
  }

  lemma AttemptIsQueued(s: System, i: nat)
    requires Queueing.QueueInv(s) && i < |s.child.attempts|
    ensures s.child.attempts[i].item in s.queue.enqueued
  {
    var items := Queueing.ItemsOf(s.child.attempts);
    assert items <= s.queue.enqueued && items[i] == s.child.attempts[i].item;
    assert s.queue.enqueued[i] == items[i];
  }

  lemma FiledItemIs(enqueued: seq<Item>, item: Item, filed: set<(nat, string)>, limit: nat, t: nat, id: string)
    requires item in enqueued && RoutingKey(item.body) == Some(id) && (t, id) in filed && OneRequestEach(filed)
    requires forall p :: p in filed ==> Ids.IssuedBelow(p.1, limit)
    requires forall i :: 0 <= i < |enqueued| ==> ItemFiled(enqueued[i], filed) && ItemPlain(enqueued[i])
    ensures item.origin == FromRequest(t)
  {
    assert Ids.IssuedBelow((t, id).1, limit);
    assert UsesGlobalId(item.body);
    assert ItemPlain(item) && ItemFiled(item, filed);
    assert (item.origin.ticket, id).1 == (t, id).1;
  }

  lemma RouteKeepsSources(s: System, past: Past, w: World)
    requires Sources(w, s.shared, s.routing) && RouterEnabled(s, Route) && Grows(Now(s, past), w)
    requires Filings(s, past)
    requires w.strict ==>
      PlainInv(s.readers, s.queue.enqueued) && Queueing.QueueInv(s) && Generations.GenerationInv(s)
    ensures var n := RouteStep(s); Sources(w, n.shared, n.routing)
  {
    hide Rightful;
    var e := s.routing.events[0];
    assert forall d: Delivery :: d.Broadcast? ==> Sound(w, d);
    var key := RoutingKey(e.msg);
    if key.Some? && key.value in s.shared.pending {
      var t, id := s.shared.pending[key.value].ticket, key.value;
      assert (t, id) in FiledNow(s.shared.pending);
      if w.strict { MatchWasWritten(s, past, id); }
      assert Came(Now(s, past).(past := w.past), e.generation, e.msg, t, id);
      AnswersStay(Now(s, past).(past := w.past), w, e.msg, t);
    }
  }

  lemma StoreKeepsSources(s: System, w: World)
    requires Sources(w, s.shared, s.routing) && RouterEnabled(s, StoreReply)
    requires Isolation.OwedsOk(w.requests, s.shared.waiting)
    ensures var n := StoreReplyStep(s); Sources(w, n.shared, n.routing)
  {
    var msg, t0, waiting := s.routing.router.msg, s.routing.router.entry.ticket, s.shared.waiting;
    var items := Replies(waiting, msg);
    forall i | 0 <= i < |items| ensures Sound(w, items[i].1) {
      assert Isolation.OwedOk(w.requests, waiting[i]);
      assert Serves(w.requests, t0, waiting[i].ticket);
      AnswersAreObjects(w, msg, t0);
      SetIdReplacesOnlyId(msg, waiting[i].localId);
    }
    PushAllKeeps(w, s.shared.(cached := Some(msg), initializing := false, waiting := []), items);
  }

  lemma DeliverKeepsSources(s: System, w: World)
    requires Sources(w, s.shared, s.routing) && RouterEnabled(s, DeliverReply)
    requires Isolation.RouterOk(w.requests, s.routing.router)
    ensures var n := DeliverStep(s); Sources(w, n.shared, n.routing)
  {
    var msg, entry := s.routing.router.msg, s.routing.router.entry;
    assert Serves(w.requests, entry.ticket, entry.ticket);
    SetIdReplacesOnlyId(msg, entry.localId);
    assert Rightful(w, entry.ticket, SetId(msg, entry.localId));
  }

  lemma FailuresAreOk(w: World, st: State, owed: seq<Owed>, reason: string)
    requires StateOk(w, st) && IsReason(reason)
    ensures StateOk(w, PushAll(st, Failures(owed, reason)))
  {
    forall i | 0 <= i < |owed| { ErrorIsComplaint(owed[i].localId, reason); }
    PushAllKeeps(w, st, Failures(owed, reason));
  }

  lemma ResetKeepsSources(s: System, order: seq<string>, w: World)
    requires Sources(w, s.shared, s.routing) && RouterEnabled(s, HandleReset(order))
    ensures var n := HandleResetStep(s, order); Sources(w, n.shared, n.routing)
  {
    hide Sound;
    var owed := OwedList(s.shared.pending, order);
    var drained := s.shared.(pending := map[], waiting := [], cached := None, initializing := false);
    FailuresAreOk(w, drained, owed, RESTARTED);
    FailuresAreOk(w, PushAll(drained, Failures(owed, RESTARTED)), s.shared.waiting, RESTARTED);
  }

  lemma RouterStepKeepsSources(s: System, a: RouterAction, past: Past, w: World)
    requires Sources(w, s.shared, s.routing) && RouterEnabled(s, a) && Grows(Now(s, past), w)
    requires Filings(s, past) && w.requests == s.book.requests && Isolation.IsolationInv(s)
    requires w.strict ==>
      PlainInv(s.readers, s.queue.enqueued) && Queueing.QueueInv(s) && Generations.GenerationInv(s)
    ensures var n := RouterStep(s, a); Sources(w, n.shared, n.routing)
  {
    match a
    case Route => RouteKeepsSources(s, past, w);
    case StoreReply => StoreKeepsSources(s, w);
    case LookUpClient =>
    case DeliverReply => DeliverKeepsSources(s, w);
    case HandleReset(order) => ResetKeepsSources(s, order, w);
  }

  // ----- the other tasks

  lemma ReaperStepKeepsSources(s: System, a: ReaperAction, w: World)
    requires Sources(w, s.shared, s.routing) && ReaperEnabled(s, a)
    ensures var n := ReaperStep(s, a); Sources(w, n.shared, n.routing)
  {
    hide Sound;
    if a.ReportReaped? { FailuresAreOk(w, s.shared, s.reaping.hand, TIMED_OUT); }
  }

  lemma ManagerClearsOrResets(s: System, a: ManagerAction)
    requires ManagerEnabled(s, a)
    ensures var n := ManagerStep(s, a);
      && (n.shared == s.shared || n.shared == ClearCache(s.shared))
      && (n.routing == s.routing ||
          n.routing == s.routing.(events := s.routing.events + [ResetEvent(s.child.generation)]))
  {
  }

  lemma ManagerStepKeepsSources(s: System, a: ManagerAction, w: World)
    requires Sources(w, s.shared, s.routing) && ManagerEnabled(s, a)
    ensures var n := ManagerStep(s, a); Sources(w, n.shared, n.routing)
  {
    hide ManagerStep, ManagerEnabled, Sound, AllSound, TableOk, WaitersOk, RouterOk;
    ManagerClearsOrResets(s, a);
  }

  lemma StepGrows(s: System, l: Label, past: Past)
    requires Enabled(s, l)
    ensures var n := Apply(s, l); Grows(Now(s, past), Now(n, Next(past, l, n)))
    ensures !l.ByClient? ==> Apply(s, l).book.requests == s.book.requests
  {
    Queueing.StepKeepsConfig(s, l);
    match l
    case ByClient(c, a) => ClientStepElsewhere(s, c, a);
    case ByManager(a) => ManagerStepFrame(s, a);
    case ByRouter(a) => RouterStepFrame(s, a);
    case ByReaper(a) => ReaperStepFrame(s, a);
    case _ =>
  }

  /** The invariants of the whole daemon that the claim rests on. */
  ghost predicate Supported(s: System, past: Past) {
    && Ledger.LedgerInv(s) && Isolation.IsolationInv(s) && Base(s) && Queueing.QueueInv(s) && Filings(s, past)
    && (s.config.plainHandshakes ==> PlainInv(s.readers, s.queue.enqueued))
    && (s.config.honest && s.config.plainHandshakes ==> Generations.GenerationInv(s))
  }

  lemma HaveIds(s: System)
    requires Isolation.IsolationInv(s)
    ensures Isolation.AllHaveIds(s.book.requests)
  {
  }

  lemma StepKeepsSources(s: System, l: Label, past: Past)
    requires Supported(s, past) && Sources(Now(s, past), s.shared, s.routing) && Enabled(s, l)
    ensures var n := Apply(s, l); Sources(Now(n, Next(past, l, n)), n.shared, n.routing)
  {
    hide Sources, Filings, PlainInv, Ledger.LedgerInv, Isolation.IsolationInv, Queueing.QueueInv,
         Generations.GenerationInv;
    var n := Apply(s, l);
    var w := Now(n, Next(past, l, n));
    StepGrows(s, l, past);
    SourcesStay(Now(s, past), w, s.shared, s.routing);
    match l
    case ByClient(c, a) =>
      assert Forwarding.Flow(s, c);
      HaveIds(s);
      ClientStepKeepsSources(s, c, a, w);
    case ByManager(a) => ManagerStepKeepsSources(s, a, w);
    case ByRouter(a) => RouterStepKeepsSources(s, a, past, w);
    case ByReaper(a) => ReaperStepKeepsSources(s, a, w);
    case _ => OtherStepKeepsSources(s, l, w);
  }

  lemma OtherStepKeepsSources(s: System, l: Label, w: World)
    requires Enabled(s, l) && (l.Connect? || l.Probe? || l.Emit? || l.Pass?)
    requires Sources(w, s.shared, s.routing) && EmittedBy(l) <= w.past.emitted
    ensures var n := Apply(s, l); Sources(w, n.shared, n.routing)
  {
    hide Sound, Answers;
  }

  lemma StepKeepsSupport(s: System, l: Label, past: Past)
    requires Supported(s, past) && Enabled(s, l)
    ensures var n := Apply(s, l); Supported(n, Next(past, l, n))
  {
    hide Enabled, Apply, Filings, PlainInv, Ledger.LedgerInv, Isolation.IsolationInv, Queueing.QueueInv,
         Generations.GenerationInv;
    Queueing.StepKeepsConfig(s, l);
    Isolation.StepKeepsIsolation(s, l);
    Ledger.StepKeepsLedger(s, l);
    Queueing.StepKeepsQueue(s, l);
    Renumbering.RequestsAreObjects(s.book.requests);
    StepKeepsFilings(s, l, past);
    StepKeepsBase(s, l);
    if s.config.plainHandshakes { StepKeepsPlain(s, l); }
    if s.config.honest && s.config.plainHandshakes { Generations.StepKeepsGenerations(s, l); }
  }

  lemma {:induction false} RunKeepsSources(s: System, labels: seq<Label>, past: Past)
    requires Supported(s, past) && Sources(Now(s, past), s.shared, s.routing) && IsRun(s, labels)
    ensures var n := Final(s, labels);
      Sources(Now(n, After(s, labels, past)), n.shared, n.routing) && n.config == s.config
    decreases |labels|
  {
    hide Enabled, Apply, Supported, Sources;
    if labels != [] {
      StepKeepsSources(s, labels[0], past);
      StepKeepsSupport(s, labels[0], past);
      Queueing.StepKeepsConfig(s, labels[0]);
      RunKeepsSources(Apply(s, labels[0]), labels[1..], Next(past, labels[0], Apply(s, labels[0])));
    }
  }

  // ----- the theorem

  ghost predicate HasId(msg: Value, id: string) {
    Get(msg, "id") == Some(Str(id))
  }

  /** In this run child `g` emitted `raw` with the id that request `t0` was on file under. */
  ghost predicate Emitted(s: System, labels: seq<Label>, g: nat, raw: Value, t0: nat, id: string) {
    Emit(g, raw) in labels && HasId(raw, id) && FiledIn(s, labels, t0, id)
  }

  /** That child was given the request with this id. */
  ghost predicate GivenTo(attempts: seq<Attempt>, g: nat, t0: nat, id: string) {
    exists i :: 0 <= i < |attempts| && attempts[i].generation == g &&
                attempts[i].item.origin == FromRequest(t0) && HasId(attempts[i].item.body, id)
  }

  /** The answer to request `t` is what child `g` emitted for it, or for another initialize. */
  ghost predicate IsAnswer(s: System, labels: seq<Label>, t: nat, msg: Value, g: nat, raw: Value, t0: nat, id: string)
    requires IsRun(s, labels)
  {
    var n := Final(s, labels);
    && t < |n.book.requests| && Get(n.book.requests[t].body, "id").Some?
    && Emitted(s, labels, g, raw, t0, id) && Serves(n.book.requests, t0, t)
    && OnlyIdDiffers(raw, msg, Get(n.book.requests[t].body, "id").value)
    && (s.config.honest && s.config.plainHandshakes ==> GivenTo(n.child.attempts, g, t0, id))
  }

  /** An id of the daemon's is only ever looked up for a message that has just this id. */
  lemma KeyIsId(msg: Value, id: string, limit: nat)
    requires RoutingKey(msg) == Some(id) && Ids.IssuedBelow(id, limit)
    ensures HasId(msg, id)
  {
    var c: nat, n: nat :| id == Ids.GlobalId(c, n);
    match Get(msg, "id").value
    case Int(i) => Ids.IdSpacesDisjoint(c, n, 0, i);
    case _ =>
  }

  lemma WrittenIsGiven(attempts: seq<Attempt>, g: nat, t: nat, id: string, limit: nat)
    requires WrittenTo(attempts, g, t, id) && Ids.IssuedBelow(id, limit)
    ensures GivenTo(attempts, g, t, id)
  {
    var i :| 0 <= i < |attempts| && attempts[i].generation == g &&
             attempts[i].item.origin == FromRequest(t) && RoutingKey(attempts[i].item.body) == Some(id);
    KeyIsId(attempts[i].item.body, id, limit);
  }

  lemma CameIsEmitted(s: System, labels: seq<Label>, g: nat, raw: Value, t0: nat, id: string)
    requires Initial(s) && IsRun(s, labels)
    requires Came(Now(Final(s, labels), After(s, labels, NOTHING)), g, raw, t0, id)
    ensures Emitted(s, labels, g, raw, t0, id)
    ensures var n := Final(s, labels);
      n.config.honest && n.config.plainHandshakes ==> GivenTo(n.child.attempts, g, t0, id)
  {
    NothingYet(s);
    hide Enabled, Apply, IsRun, Final, Initial, Base, FiledIn, WrittenTo, GivenTo, HasId, RoutingKey, Ids.IssuedBelow;
    RunKeepsFilings(s, labels, NOTHING);
    var n := Final(s, labels);
    assert Ids.IssuedBelow((t0, id).1, n.shared.nextGlobal);
    EmittedInRun(s, labels, NOTHING, g, raw);
    FiledInRun(s, labels, NOTHING, t0, id);
    KeyIsId(raw, id, n.shared.nextGlobal);
    if n.config.honest && n.config.plainHandshakes {
      WrittenIsGiven(n.child.attempts, g, t0, id, n.shared.nextGlobal);
    }
  }

  lemma InitialLedger(s: System)
    requires Initial(s)
    ensures Ledger.LedgerInv(s) && Isolation.IsolationInv(s)
  {
  }

  lemma InitialQueue(s: System)
    requires Initial(s)
    ensures Base(s) && Queueing.QueueInv(s)
  {
  }

  lemma InitialIds(s: System)
    requires Initial(s)
    ensures Filings(s, NOTHING) && PlainInv(s.readers, s.queue.enqueued)
    ensures s.config.honest && s.config.plainHandshakes ==> Generations.GenerationInv(s)
  {
  }

  lemma InitialSources(s: System)
    requires Initial(s)
    ensures Sources(Now(s, NOTHING), s.shared, s.routing)
  {
  }

  lemma InitiallySupported(s: System)
    requires Initial(s)
    ensures Supported(s, NOTHING) && Sources(Now(s, NOTHING), s.shared, s.routing)
  {
    hide Initial, Ledger.LedgerInv, Isolation.IsolationInv, Sources, Base, Queueing.QueueInv, Filings, PlainInv,
         Generations.GenerationInv;
    InitialLedger(s);
    InitialQueue(s);
    InitialIds(s);
    InitialSources(s);
  }

  lemma RightfulIsAnswer(s: System, labels: seq<Label>, t: nat, msg: Value)
    requires Initial(s) && IsRun(s, labels) && Final(s, labels).config == s.config
    requires Rightful(Now(Final(s, labels), After(s, labels, NOTHING)), t, msg)
    ensures exists g, raw, t0, id :: IsAnswer(s, labels, t, msg, g, raw, t0, id)
  {
    hide Enabled, Apply, IsRun, Final, Initial, Emitted, GivenTo, OnlyIdDiffers;
    var w := Now(Final(s, labels), After(s, labels, NOTHING));
    var raw, t0 :| Answers(w, raw, t0) && Serves(w.requests, t0, t) &&
                   OnlyIdDiffers(raw, msg, Get(w.requests[t].body, "id").value);
    var g, id :| Came(w, g, raw, t0, id);
    CameIsEmitted(s, labels, g, raw, t0, id);
    assert IsAnswer(s, labels, t, msg, g, raw, t0, id);
  }

  lemma DeliveredIsSound(w: World, st: State, r: Routing, c: nat, k: nat)
    requires Sources(w, st, r) && k < |Sent(st.outbox, c)|
    ensures Sound(w, Sent(st.outbox, c)[k])
  {
    hide Sound;
    assert Sound(w, st.outbox[c][k]);
  }

  /** In every run, whatever children emit and however the tasks interleave: what a client is
      told in answer to its request is a message that a child emitted, with nothing but the id
      replaced, and the child's id for it is the one under which that very request was on file;
      only an initialize may be answered by what was emitted for another initialize. If
      children are honest and handshake notifications plain, that child is one the request was
      given, under that id. */
  lemma RepliesAreChildAnswers(s: System, labels: seq<Label>, c: nat, k: nat)
    requires Initial(s) && IsRun(s, labels)
    requires k < |Sent(Final(s, labels).shared.outbox, c)| && Sent(Final(s, labels).shared.outbox, c)[k].Reply?
    ensures var d := Sent(Final(s, labels).shared.outbox, c)[k];
      && Ledger.From(Final(s, labels).book.requests, d.ticket, c)
      && exists g, raw, t0, id :: IsAnswer(s, labels, d.ticket, d.msg, g, raw, t0, id)
  {
    InitiallySupported(s);
    hide Enabled, Apply, IsRun, Final, Supported, Sources, IsAnswer, Rightful;
    RunKeepsSources(s, labels, NOTHING);
    Isolation.ClientsSeeOnlyTheirOwnIds(s, labels, c, k);
    var n, w := Final(s, labels), Now(Final(s, labels), After(s, labels, NOTHING));
    DeliveredIsSound(w, n.shared, n.routing, c, k);
    RightfulIsAnswer(s, labels, Sent(n.shared.outbox, c)[k].ticket, Sent(n.shared.outbox, c)[k].msg);
  }

  /** In every run, whatever a client is told that is no answer and no broadcast is an error
      response with a reason of the daemon's, never anything that could pass for a result. */
  lemma ComplaintsAreErrors(s: System, labels: seq<Label>, c: nat, k: nat)
    requires Initial(s) && IsRun(s, labels) && k < |Sent(Final(s, labels).shared.outbox, c)|
    ensures var d := Sent(Final(s, labels).shared.outbox, c)[k]; d.Failure? || d.Notice? ==> IsComplaint(d.msg)
  {
    InitiallySupported(s);
    hide Enabled, Apply, IsRun, Final, Supported, Sources, IsComplaint, Rightful;
    RunKeepsSources(s, labels, NOTHING);
    var n, w := Final(s, labels), Now(Final(s, labels), After(s, labels, NOTHING));
    DeliveredIsSound(w, n.shared, n.routing, c, k);
  }
}
