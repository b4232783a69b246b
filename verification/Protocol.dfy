/** The running daemon as a step machine. Readers (one per client), writers, the router,
    the reaper, the child manager, the heartbeat inspector and every child incarnation
    interleave freely; a step is one lock region or one channel operation.

    `book`, `enqueued`, `attempts`, `cachedFrom` and `resetsHandled` are history: no step is
    enabled or disabled by them, except that `attempts` says what an honest child may
    answer. */
module Protocol {
  import opened Wrappers
  import opened Json
  import opened Shared
  import Ids

  /** How one message entered the queue to the child. */
  datatype Origin = FromRequest(ticket: nat) | FromNotice(client: nat) | FromHandshake(client: nat) | FromProbe

  datatype Item = Item(origin: Origin, body: Value)

  /** A message a client sent that has an id, in order of arrival. */
  datatype Arrival = Arrival(client: nat, body: Value, tooLarge: bool)

  /** Where `handle_client` and the calls below it stand for one client. */
  datatype Reader =
    | Idle
    | Asked(req: Request, tooLarge: bool)
    | Noted(msg: Value, tooLarge: bool)
    | Announcing(msg: Value)
    | Completing
    | Buffering(req: Request)
    | Flushing(todo: seq<Request>)
    | Sending(req: Request, id: string, rest: seq<Request>)
    | TimedOut
    | Leaving
    | Left
    | Aborted

  datatype Event = Message(generation: nat, msg: Value) | ResetEvent(generation: nat)

  datatype Router =
    | Listening
    | Matched(generation: nat, msg: Value, entry: Pending, stored: bool)
    | Holding(msg: Value, entry: Pending)

  datatype Manager =
    | Starting
    | HoldingFirst(first: Item)
    | Attached(hand: Option<Item>)
    | Detached(restart: bool)
    | Clearing(restart: bool)
    | Stopped

  datatype Attempt = Attempt(generation: nat, item: Item)

  /** The ledger entry of one request. */
  datatype Place =
    | AtReader
    | AtBuffer
    | AtWaiting
    | AtPending(id: string)
    | AtRouter
    | AtReaper
    | AtChannel
    | Lost

  datatype Config = Config(
    requestTimeout: nat,
    lazyStart: bool,
    maxRestarts: nat,
    /** children answer only ids that were written to them */
    honest: bool,
    /** no handshake notification carries an id of the form the daemon hands out */
    plainHandshakes: bool,
    /** the longest pause between two reaper ticks, when there is one */
    reaperGap: Option<nat>)

  /** The bounded queue to the child; `enqueued` is everything it ever accepted. */
  datatype Queue = Queue(items: seq<Item>, open: bool, enqueued: seq<Item>)

  datatype Child = Child(manager: Manager, generation: nat, restarts: nat, attempts: seq<Attempt>)

  datatype Routing = Routing(events: seq<Event>, router: Router, cachedFrom: nat, resetsHandled: nat)

  datatype Reaping = Reaping(hand: seq<Owed>, lastReap: nat)

  datatype Book = Book(requests: seq<Arrival>, location: seq<Place>, turnedAway: set<nat>)

  datatype System = System(
    config: Config,
    now: nat,
    nextProbe: nat,
    shared: State,
    readers: map<nat, Reader>,
    queue: Queue,
    child: Child,
    routing: Routing,
    reaping: Reaping,
    book: Book)

  datatype ClientAction =
    | Receive(msg: Value, tooLarge: bool)
    | RejectTooLarge
    | ClaimInitialized
    | Announce
    | FinishHandshake
    | ForwardNotice
    | InitializeRequest
    | CheckHandshake
    | BufferRequest
    | ForwardNext
    | FlushDone
    | Enqueue
    | EnqueueClosed
    | NoticeTimeout
    | ReportTimeout
    | HangUp
    | DecodeError
    | LeaveClient
    | WriterGone

  datatype ManagerAction =
    | TakeFirst
    | Spawn
    | TakeNext
    | WriteToChild
    | Detach(restart: bool)
    | SendReset
    | ClearState
    | StopManager

  datatype RouterAction =
    | Route
    | StoreReply
    | LookUpClient
    | DeliverReply
    | HandleReset(order: seq<string>)

  datatype ReaperAction = Reap(order: seq<string>) | ReportReaped

  datatype Label =
    | Connect
    | ByClient(client: nat, action: ClientAction)
    | ByManager(step: ManagerAction)
    | ByRouter(turn: RouterAction)
    | ByReaper(tick: ReaperAction)
    | Probe
    | Emit(generation: nat, msg: Value)
    | Pass(ticks: nat)

  /** A message that will be owed an answer. A handshake notification is consumed as one
      even if it carries an id. */
  predicate IsRequest(msg: Value, tooLarge: bool) {
    Get(msg, "id").Some? && (tooLarge || Method(msg) != INITIALIZED)
  }

  const INITIALIZED := "notifications/initialized"
  const INITIALIZE := "initialize"
  const RESTARTED := "MCP server restarted"

  /** The requests in a reader's own variables. */
  function Held(r: Reader): seq<Request> {
    match r
    case Asked(req, _) => [req]
    case Buffering(req) => [req]
    case Flushing(todo) => todo
    case Sending(_, _, rest) => rest
    case _ => []
  }

  predicate HasRoom(q: Queue) {
    q.open && |q.items| < MAX_QUEUE
  }

  function ProbeMessage(n: nat): Value {
    Obj(map[
      "jsonrpc" := Str("2.0"),
      "id" := Str(Ids.HeartbeatId(n)),
      "method" := Str("ping"),
      "params" := Obj(map[])
    ])
  }

  /** The id the router looks a child message up under, if it looks it up at all. */
  function RoutingKey(msg: Value): Option<string> {
    match Get(msg, "id")
    case None => None
    case Some(id) =>
      match IdKey(id)
      case Some(key) => if id.Str? && Ids.IsHeartbeatResponse(key) then None else Some(key)
      case None => None
  }

  predicate IsBroadcast(msg: Value) {
    Get(msg, "id").None? || Get(msg, "id") == Some(Null)
  }

  /** Some message carrying this id was handed to that child's standard input. */
  ghost predicate WasWritten(attempts: seq<Attempt>, generation: nat, id: string) {
    exists i :: 0 <= i < |attempts| && attempts[i].generation == generation &&
                RoutingKey(attempts[i].item.body) == Some(id)
  }

  /** A handshake notification with an id that some request could be given. */
  ghost predicate ForgesId(msg: Value) {
    && Method(msg) == INITIALIZED
    && exists c: nat, n: nat :: RoutingKey(msg) == Some(Ids.GlobalId(c, n))
  }

  ghost predicate Initial(s: System) {
    && s.shared == State(1, 1, {}, map[], map[], None, [], s.shared.initializing, map[], false)
    && s.readers == map[]
    && s.queue == Queue([], true, [])
    && s.child == Child(Starting, 0, 0, [])
    && s.routing == Routing([], Listening, 0, 0)
    && s.reaping == Reaping([], s.now)
    && s.book == Book([], [], {})
  }

  // ----- steps

  ghost predicate ClientEnabled(s: System, c: nat, a: ClientAction) {
    && c in s.readers
    && var r := s.readers[c];
       match a
       case Receive(msg, _) => r.Idle? && (s.config.plainHandshakes ==> !ForgesId(msg))
       case RejectTooLarge => (r.Asked? || r.Noted?) && r.tooLarge
       case ClaimInitialized => r.Noted? && !r.tooLarge && Method(r.msg) == INITIALIZED
       case Announce => r.Announcing?
       case FinishHandshake => r.Completing?
       case ForwardNotice => r.Noted? && !r.tooLarge && Method(r.msg) != INITIALIZED
       case InitializeRequest => r.Asked? && !r.tooLarge && Method(r.req.body) == INITIALIZE
       case CheckHandshake => r.Asked? && !r.tooLarge && Method(r.req.body) != INITIALIZE
       case BufferRequest => r.Buffering?
       case ForwardNext => r.Flushing? && r.todo != []
       case FlushDone => r.Flushing? && r.todo == []
       case Enqueue => r.Sending? && HasRoom(s.queue)
       case EnqueueClosed => r.Sending? && !s.queue.open
       case NoticeTimeout => r.Idle? && HandshakeTimedOut(s.shared, c, s.now)
       case ReportTimeout => r.TimedOut?
       case HangUp => r.Idle?
       case DecodeError => r.Idle?
       case LeaveClient => r.Leaving?
       case WriterGone => true
  }

  ghost predicate ManagerEnabled(s: System, a: ManagerAction) {
    match a
    case TakeFirst => s.child.manager.Starting? && s.config.lazyStart && s.child.restarts == 0 && s.queue.items != []
    case Spawn =>
      && (s.child.manager.HoldingFirst? ||
          (s.child.manager.Starting? && !(s.config.lazyStart && s.child.restarts == 0)))
      && (s.config.maxRestarts == 0 || s.child.restarts < s.config.maxRestarts)
    case TakeNext => s.child.manager == Attached(None) && s.queue.items != []
    case WriteToChild => s.child.manager.Attached? && s.child.manager.hand.Some?
    case Detach(_) => s.child.manager == Attached(None)
    case SendReset => s.child.manager.Detached?
    case ClearState => s.child.manager.Clearing?
    case StopManager => s.child.manager.Starting? || s.child.manager.HoldingFirst?
  }

  ghost predicate RouterEnabled(s: System, a: RouterAction) {
    match a
    case Route => s.routing.router.Listening? && s.routing.events != [] && s.routing.events[0].Message?
    case StoreReply => s.routing.router.Matched? && s.routing.router.entry.isInitialize && !s.routing.router.stored
    case LookUpClient => s.routing.router.Matched? && (s.routing.router.entry.isInitialize ==> s.routing.router.stored)
    case DeliverReply => s.routing.router.Holding?
    case HandleReset(order) =>
      && s.routing.router.Listening? && s.routing.events != [] && s.routing.events[0].ResetEvent?
      && Enumerates(order, s.shared.pending.Keys)
  }

  ghost predicate ReaperEnabled(s: System, a: ReaperAction) {
    match a
    case Reap(order) =>
      s.reaping.hand == [] && Enumerates(order, ExpiredKeys(s.shared, s.now, s.config.requestTimeout))
    case ReportReaped => s.reaping.hand != []
  }

  ghost predicate Enabled(s: System, l: Label) {
    match l
    case Connect => true
    case ByClient(c, a) => ClientEnabled(s, c, a)
    case ByManager(a) => ManagerEnabled(s, a)
    case ByRouter(a) => RouterEnabled(s, a)
    case ByReaper(a) => ReaperEnabled(s, a)
    case Probe => s.shared.serverInitialized && HasRoom(s.queue)
    case Emit(g, msg) =>
      && 1 <= g <= s.child.generation
      && (s.config.honest && RoutingKey(msg).Some? ==> WasWritten(s.child.attempts, g, RoutingKey(msg).value))
    case Pass(d) => s.config.reaperGap.Some? ==> s.now + d <= s.reaping.lastReap + s.config.reaperGap.value
  }

  /** Where a request is after an attempt to answer its client. */
  function Answered(st: State, client: nat): Place {
    if client in st.clients then AtChannel else Lost
  }

  function ClientOf(requests: seq<Arrival>, ticket: nat): nat {
    if ticket < |requests| then requests[ticket].client else 0
  }

  function Relocate(b: Book, ticket: nat, p: Place): Book {
    if ticket < |b.location| then b.(location := b.location[ticket := p]) else b
  }

  function TurnAway(b: Book, ticket: nat): Book {
    b.(turnedAway := b.turnedAway + {ticket})
  }

  function Offer(q: Queue, item: Item): Queue {
    q.(items := q.items + [item], enqueued := q.enqueued + [item])
  }

  function OfferIfRoom(q: Queue, item: Item): Queue {
    if HasRoom(q) then Offer(q, item) else q
  }

  function SetReader(s: System, c: nat, r: Reader): System {
    s.(readers := s.readers[c := r])
  }

  function ReceiveStep(s: System, c: nat, msg: Value, tooLarge: bool): System {
    if IsRequest(msg, tooLarge) then
      var b := s.book.(requests := s.book.requests + [Arrival(c, msg, tooLarge)],
                       location := s.book.location + [AtReader]);
      s.(book := b, readers := s.readers[c := Asked(Request(|s.book.requests|, msg), tooLarge)])
    else
      SetReader(s, c, Noted(msg, tooLarge))
  }

  function RejectTooLargeStep(s: System, c: nat): System
    requires c in s.readers && (s.readers[c].Asked? || s.readers[c].Noted?)
  {
    match s.readers[c]
    case Asked(req, _) =>
      s.(shared := RejectLarge(s.shared, c, req),
         book := Relocate(s.book, req.ticket, Answered(s.shared, c)),
         readers := s.readers[c := Idle])
    case Noted(msg, _) =>
      s.(shared := Push(s.shared, c, Notice(ErrorResponse(LocalId(msg), TOO_LARGE))), readers := s.readers[c := Idle])
  }

  function InitializeStep(s: System, c: nat): System
    requires c in s.readers && s.readers[c].Asked?
  {
    var req, id := s.readers[c].req, Ids.GlobalId(c, s.shared.nextGlobal);
    var place :=
      if InitializeForwards(s.shared) then AtPending(id)
      else if s.shared.cached.None? && s.shared.initializing then AtWaiting
      else Answered(s.shared, c);
    s.(shared := Initialize(s.shared, c, req, s.now),
       book := Relocate(s.book, req.ticket, place),
       readers := s.readers[c := if InitializeForwards(s.shared) then Sending(req, id, []) else Idle])
  }

  function ForwardStep(s: System, c: nat): System
    requires c in s.readers && s.readers[c].Flushing? && s.readers[c].todo != []
  {
    var req, rest, id := s.readers[c].todo[0], s.readers[c].todo[1..], Ids.GlobalId(c, s.shared.nextGlobal);
    if Overloaded(s.shared) then
      s.(shared := RejectOverload(s.shared, c, req),
         book := TurnAway(Relocate(s.book, req.ticket, Answered(s.shared, c)), req.ticket),
         readers := s.readers[c := Flushing(rest)])
    else
      s.(shared := File(s.shared, c, req, false, s.now),
         book := Relocate(s.book, req.ticket, AtPending(id)),
         readers := s.readers[c := Sending(req, id, rest)])
  }

  function BufferStep(s: System, c: nat): System
    requires c in s.readers && s.readers[c].Buffering?
  {
    var req := s.readers[c].req;
    s.(shared := BufferMessage(s.shared, c, req),
       book := Relocate(s.book, req.ticket, if c in s.shared.handshakes then AtBuffer else Lost),
       readers := s.readers[c := Idle])
  }

  function FinishHandshakeStep(s: System, c: nat): System {
    var b := s.book.(location := seq(|s.book.location|, t requires 0 <= t < |s.book.location| =>
      if s.book.location[t].AtBuffer? && ClientOf(s.book.requests, t) == c then AtReader else s.book.location[t]));
    s.(shared := CompleteHandshake(s.shared, c),
       book := b,
       readers := s.readers[c := Flushing(BufferedFor(s.shared.handshakes, c))])
  }

  predicate IsHeldFor(p: Place) {
    p.AtPending? || p.AtWaiting? || p.AtBuffer?
  }

  function UnregisterStep(s: System, c: nat): System {
    var b := s.book.(location := seq(|s.book.location|, t requires 0 <= t < |s.book.location| =>
      if ClientOf(s.book.requests, t) == c && IsHeldFor(s.book.location[t]) then Lost else s.book.location[t]));
    s.(shared := Unregister(s.shared, c), book := b)
  }

  function LeaveStep(s: System, c: nat): System {
    var n := UnregisterStep(s, c);
    n.(readers := n.readers[c := Left])
  }

  ghost function ClientStep(s: System, c: nat, a: ClientAction): System
    requires ClientEnabled(s, c, a)
  {
    var r := s.readers[c];
    match a
    case Receive(msg, tooLarge) => ReceiveStep(s, c, msg, tooLarge)
    case RejectTooLarge => RejectTooLargeStep(s, c)
    case ClaimInitialized =>
      s.(shared := s.shared.(serverInitialized := true),
         readers := s.readers[c := if s.shared.serverInitialized then Completing else Announcing(r.msg)])
    case Announce =>
      s.(queue := OfferIfRoom(s.queue, Item(FromHandshake(c), r.msg)), readers := s.readers[c := Completing])
    case FinishHandshake => FinishHandshakeStep(s, c)
    case ForwardNotice =>
      s.(queue := OfferIfRoom(s.queue, Item(FromNotice(c), r.msg)), readers := s.readers[c := Idle])
    case InitializeRequest => InitializeStep(s, c)
    case CheckHandshake =>
      SetReader(s, c, if HandshakeComplete(s.shared, c) then Flushing([r.req]) else Buffering(r.req))
    case BufferRequest => BufferStep(s, c)
    case ForwardNext => ForwardStep(s, c)
    case FlushDone => SetReader(s, c, Idle)
    case Enqueue =>
      s.(queue := Offer(s.queue, Item(FromRequest(r.req.ticket), SetId(r.req.body, Str(r.id)))),
         readers := s.readers[c := Flushing(r.rest)])
    case EnqueueClosed => s.(book := TurnAway(s.book, r.req.ticket), readers := s.readers[c := Flushing(r.rest)])
    case NoticeTimeout => SetReader(s, c, TimedOut)
    case ReportTimeout =>
      s.(shared := Push(s.shared, c, Notice(ErrorResponse(Null, HANDSHAKE_LATE))), readers := s.readers[c := Leaving])
    case HangUp => SetReader(s, c, Leaving)
    case DecodeError => SetReader(s, c, Aborted)
    case LeaveClient => LeaveStep(s, c)
    case WriterGone => UnregisterStep(s, c)
  }

  ghost function ManagerStep(s: System, a: ManagerAction): System
    requires ManagerEnabled(s, a)
  {
    var k, q := s.child, s.queue;
    match a
    case TakeFirst =>
      s.(child := k.(manager := HoldingFirst(q.items[0])), queue := q.(items := q.items[1..]))
    case Spawn =>
      var hand := if k.manager.HoldingFirst? then Some(k.manager.first) else None;
      s.(child := k.(generation := k.generation + 1, manager := Attached(hand)))
    case TakeNext =>
      s.(child := k.(manager := Attached(Some(q.items[0]))), queue := q.(items := q.items[1..]))
    case WriteToChild =>
      s.(child := k.(manager := Attached(None),
                     attempts := k.attempts + [Attempt(k.generation, k.manager.hand.value)]))
    case Detach(restart) => s.(child := k.(manager := Detached(restart)))
    case SendReset =>
      s.(child := k.(manager := Clearing(k.manager.restart)),
         routing := s.routing.(events := s.routing.events + [ResetEvent(k.generation)]))
    case ClearState =>
      if k.manager.restart then
        s.(shared := ClearCache(s.shared), child := k.(manager := Starting, restarts := k.restarts + 1))
      else
        s.(shared := ClearCache(s.shared), child := k.(manager := Stopped), queue := q.(items := [], open := false))
    case StopManager => s.(child := k.(manager := Stopped), queue := q.(items := [], open := false))
  }

  function RouteStep(s: System): System
    requires s.routing.events != [] && s.routing.events[0].Message?
  {
    var g, msg := s.routing.events[0].generation, s.routing.events[0].msg;
    var rest := s.routing.(events := s.routing.events[1..]);
    if IsBroadcast(msg) then s.(routing := rest, shared := BroadcastAll(s.shared, msg))
    else
      match RoutingKey(msg)
      case None => s.(routing := rest)
      case Some(id) =>
        if id in s.shared.pending then
          var entry := s.shared.pending[id];
          s.(routing := rest.(router := Matched(g, msg, entry, false)),
             shared := TakePending(s.shared, id),
             book := Relocate(s.book, entry.ticket, AtRouter))
        else s.(routing := rest)
  }

  function StoreReplyStep(s: System): System
    requires s.routing.router.Matched?
  {
    var router := s.routing.router;
    var b := s.book.(location := seq(|s.book.location|, t requires 0 <= t < |s.book.location| =>
      if s.book.location[t].AtWaiting? then Answered(s.shared, ClientOf(s.book.requests, t)) else s.book.location[t]));
    s.(shared := CacheReply(s.shared, router.msg),
       routing := s.routing.(router := router.(stored := true), cachedFrom := router.generation),
       book := b)
  }

  function LookUpStep(s: System): System
    requires s.routing.router.Matched?
  {
    var msg, entry := s.routing.router.msg, s.routing.router.entry;
    if entry.client in s.shared.clients
    then s.(routing := s.routing.(router := Holding(msg, entry)))
    else s.(routing := s.routing.(router := Listening), book := Relocate(s.book, entry.ticket, Lost))
  }

  function DeliverStep(s: System): System
    requires s.routing.router.Holding?
  {
    var msg, entry := s.routing.router.msg, s.routing.router.entry;
    s.(routing := s.routing.(router := Listening),
       shared := SendReply(s.shared, entry, msg),
       book := Relocate(s.book, entry.ticket, AtChannel))
  }

  ghost function HandleResetStep(s: System, order: seq<string>): System
    requires s.routing.events != [] && s.routing.events[0].ResetEvent? && Enumerates(order, s.shared.pending.Keys)
  {
    var b := s.book.(location := seq(|s.book.location|, t requires 0 <= t < |s.book.location| =>
      if s.book.location[t].AtPending? || s.book.location[t].AtWaiting?
      then Answered(s.shared, ClientOf(s.book.requests, t)) else s.book.location[t]));
    s.(shared := Reset(s.shared, order, RESTARTED),
       routing := s.routing.(events := s.routing.events[1..], resetsHandled := s.routing.events[0].generation),
       book := b)
  }

  ghost function RouterStep(s: System, a: RouterAction): System
    requires RouterEnabled(s, a)
  {
    match a
    case Route => RouteStep(s)
    case StoreReply => StoreReplyStep(s)
    case LookUpClient => LookUpStep(s)
    case DeliverReply => DeliverStep(s)
    case HandleReset(order) => HandleResetStep(s, order)
  }

  ghost function ReapStep(s: System, order: seq<string>): System
    requires Enumerates(order, ExpiredKeys(s.shared, s.now, s.config.requestTimeout))
  {
    var expired := ExpiredKeys(s.shared, s.now, s.config.requestTimeout);
    var b := s.book.(location := seq(|s.book.location|, t requires 0 <= t < |s.book.location| =>
      if s.book.location[t].AtPending? && s.book.location[t].id in expired then AtReaper else s.book.location[t]));
    s.(shared := Expire(s.shared, s.now, s.config.requestTimeout),
       reaping := Reaping(OwedList(s.shared.pending, order), s.now),
       book := b)
  }

  function ReportReapedStep(s: System): System {
    var b := s.book.(location := seq(|s.book.location|, t requires 0 <= t < |s.book.location| =>
      if s.book.location[t].AtReaper? then Answered(s.shared, ClientOf(s.book.requests, t)) else s.book.location[t]));
    s.(shared := PushAll(s.shared, Failures(s.reaping.hand, TIMED_OUT)),
       reaping := s.reaping.(hand := []),
       book := b)
  }

  ghost function ReaperStep(s: System, a: ReaperAction): System
    requires ReaperEnabled(s, a)
  {
    match a
    case Reap(order) => ReapStep(s, order)
    case ReportReaped => ReportReapedStep(s)
  }

  ghost function Apply(s: System, l: Label): System
    requires Enabled(s, l)
  {
    match l
    case Connect => s.(shared := Register(s.shared, s.now), readers := s.readers[s.shared.nextClient := Idle])
    case ByClient(c, a) => ClientStep(s, c, a)
    case ByManager(a) => ManagerStep(s, a)
    case ByRouter(a) => RouterStep(s, a)
    case ByReaper(a) => ReaperStep(s, a)
    case Probe =>
      s.(nextProbe := s.nextProbe + 1, queue := Offer(s.queue, Item(FromProbe, ProbeMessage(s.nextProbe))))
    case Emit(g, msg) => s.(routing := s.routing.(events := s.routing.events + [Message(g, msg)]))
    case Pass(d) => s.(now := s.now + d)
  }

  // ----- runs

  ghost predicate IsRun(s: System, labels: seq<Label>)
    decreases |labels|
  {
    labels != [] ==> Enabled(s, labels[0]) && IsRun(Apply(s, labels[0]), labels[1..])
  }

  ghost function Final(s: System, labels: seq<Label>): System
    requires IsRun(s, labels)
    decreases |labels|
  {
    if labels == [] then s else Final(Apply(s, labels[0]), labels[1..])
  }

  ghost predicate Reaches(s: System, n: System) {
    exists labels :: IsRun(s, labels) && Final(s, labels) == n
  }

  lemma {:induction false} RunSnoc(s: System, labels: seq<Label>, l: Label)
    requires IsRun(s, labels) && Enabled(Final(s, labels), l)
    ensures IsRun(s, labels + [l]) && Final(s, labels + [l]) == Apply(Final(s, labels), l)
    decreases |labels|
  {
    if labels == [] {
      assert [] + [l] == [l] && [l][1..] == [];
    } else {
      RunSnoc(Apply(s, labels[0]), labels[1..], l);
      assert (labels + [l])[1..] == labels[1..] + [l];
    }
  }

  lemma Reached(s: System)
    ensures Reaches(s, s)
  {
    assert IsRun(s, []);
  }

  lemma Extend(s: System, m: System, l: Label)
    requires Reaches(s, m) && Enabled(m, l)
    ensures Reaches(s, Apply(m, l))
  {
    var labels :| IsRun(s, labels) && Final(s, labels) == m;
    RunSnoc(s, labels, l);
  }

  lemma ManagerTurn(s: System, m: System, a: ManagerAction) returns (n: System)
    requires Reaches(s, m) && ManagerEnabled(m, a)
    ensures n == ManagerStep(m, a) && Reaches(s, n)
  {
    Extend(s, m, ByManager(a));
    n := ManagerStep(m, a);
  }
}
