/** The state behind the daemon's one lock, as a value, and the effect of every lock
    region of the client, router, reaper and manager tasks on it.

    A `Request` is a client message with an id, together with its ticket: the position at
    which it arrived. Tickets, and the `Delivery` constructors, are history: the only
    thing a client's channel carries is `msg`, and no branch below inspects a ticket. */
module Shared {
  import opened Wrappers
  import opened Json
  import Ids

  const MAX_PENDING: nat := 2048
  const MAX_QUEUE: nat := 1024
  const HANDSHAKE_TIMEOUT: nat := 10_000

  datatype Request = Request(ticket: nat, body: Value)

  datatype Pending = Pending(client: nat, localId: Value, isInitialize: bool, startedAt: nat, ticket: nat)

  /** A response owed to a client: an initialize request that waits for somebody else's
      answer, or a request taken off the pending table to be failed. */
  datatype Owed = Owed(client: nat, localId: Value, ticket: nat)

  datatype Handshake = Handshake(
    connectedAt: nat, initialized: bool, initializePending: bool, buffered: seq<Request>)

  /** One message put on a client's channel. */
  datatype Delivery =
    | Broadcast(msg: Value)
    | Notice(msg: Value)
    | Reply(ticket: nat, msg: Value)
    | Failure(ticket: nat, msg: Value)

  datatype State = State(
    nextClient: nat,
    nextGlobal: nat,
    clients: set<nat>,
    outbox: map<nat, seq<Delivery>>,
    pending: map<string, Pending>,
    cached: Option<Value>,
    waiting: seq<Owed>,
    initializing: bool,
    handshakes: map<nat, Handshake>,
    serverInitialized: bool)

  function LocalId(body: Value): Value {
    match Get(body, "id")
    case Some(id) => id
    case None => Null
  }

  /** What a client's channel has carried so far. */
  function Sent(outbox: map<nat, seq<Delivery>>, client: nat): seq<Delivery> {
    if client in outbox then outbox[client] else []
  }

  /** A message on a client's channel: for a client that is not registered, nothing happens. */
  function Push(st: State, client: nat, d: Delivery): State {
    st.(outbox := if client in st.clients then st.outbox[client := Sent(st.outbox, client) + [d]] else st.outbox)
  }

  /** One `Push` per element, in order. */
  function PushAll(st: State, items: seq<(nat, Delivery)>): State
    decreases |items|
  {
    if items == [] then st else PushAll(Push(st, items[0].0, items[0].1), items[1..])
  }

  // ----- state.rs

  function Register(st: State, now: nat): State {
    st.(nextClient := st.nextClient + 1,
        clients := st.clients + {st.nextClient},
        outbox := st.outbox[st.nextClient := []],
        handshakes := st.handshakes[st.nextClient := Handshake(now, false, false, [])])
  }

  function WaitersExcept(waiting: seq<Owed>, client: nat): seq<Owed> {
    if waiting == [] then []
    else if waiting[|waiting| - 1].client == client then WaitersExcept(waiting[..|waiting| - 1], client)
    else WaitersExcept(waiting[..|waiting| - 1], client) + [waiting[|waiting| - 1]]
  }

  function PendingExcept(pending: map<string, Pending>, client: nat): map<string, Pending> {
    map g | g in pending && pending[g].client != client :: pending[g]
  }

  function Unregister(st: State, client: nat): State {
    st.(clients := st.clients - {client},
        handshakes := st.handshakes - {client},
        pending := PendingExcept(st.pending, client),
        waiting := WaitersExcept(st.waiting, client))
  }

  predicate HandshakeComplete(st: State, client: nat) {
    client in st.handshakes ==> st.handshakes[client].initialized
  }

  predicate HandshakeTimedOut(st: State, client: nat, now: nat) {
    client in st.handshakes && !st.handshakes[client].initialized &&
    now > st.handshakes[client].connectedAt + HANDSHAKE_TIMEOUT
  }

  function BufferedFor(handshakes: map<nat, Handshake>, client: nat): seq<Request> {
    if client in handshakes then handshakes[client].buffered else []
  }

  /** Marks the handshake complete; `BufferedFor` the old state is what it hands back. */
  function CompleteHandshake(st: State, client: nat): State {
    st.(handshakes :=
      if client in st.handshakes
      then st.handshakes[client := st.handshakes[client].(initialized := true, buffered := [])]
      else st.handshakes)
  }

  function BufferMessage(st: State, client: nat, req: Request): State {
    st.(handshakes :=
      if client in st.handshakes
      then st.handshakes[client := st.handshakes[client].(buffered := st.handshakes[client].buffered + [req])]
      else st.handshakes)
  }

  function OwedFor(p: Pending): Owed {
    Owed(p.client, p.localId, p.ticket)
  }

  function OwedList(pending: map<string, Pending>, order: seq<string>): seq<Owed>
    requires forall i :: 0 <= i < |order| ==> order[i] in pending
  {
    seq(|order|, i requires 0 <= i < |order| => OwedFor(pending[order[i]]))
  }

  function FailureFor(o: Owed, reason: string): (nat, Delivery) {
    (o.client, Failure(o.ticket, ErrorResponse(o.localId, reason)))
  }

  function Failures(owed: seq<Owed>, reason: string): seq<(nat, Delivery)> {
    seq(|owed|, i requires 0 <= i < |owed| => FailureFor(owed[i], reason))
  }

  /** `order` is the order in which the hash map gave up its keys. */
  ghost predicate Enumerates(order: seq<string>, keys: set<string>) {
    && (forall i :: 0 <= i < |order| ==> order[i] in keys)
    && (forall k :: k in keys ==> k in order)
    && (forall i, j :: 0 <= i < j < |order| ==> order[i] != order[j])
  }

  function Reset(st: State, order: seq<string>, reason: string): State
    requires forall i :: 0 <= i < |order| ==> order[i] in st.pending
  {
    var drained := st.(pending := map[], waiting := [], cached := None, initializing := false);
    PushAll(PushAll(drained, Failures(OwedList(st.pending, order), reason)), Failures(st.waiting, reason))
  }

  // ----- client.rs

  const TOO_LARGE := "request too large"
  const OVERLOADED := "mux overloaded (too many pending)"
  const HANDSHAKE_LATE := "handshake timeout: initialize/initialized sequence not completed"

  function RejectLarge(st: State, client: nat, req: Request): State {
    Push(st, client, Failure(req.ticket, ErrorResponse(LocalId(req.body), TOO_LARGE)))
  }

  function MarkInitializePending(st: State, client: nat): State {
    st.(handshakes :=
      if client in st.handshakes
      then st.handshakes[client := st.handshakes[client].(initializePending := true)]
      else st.handshakes)
  }

  /** Allocates the next global id and files the request under it. */
  function File(st: State, client: nat, req: Request, isInitialize: bool, now: nat): State {
    st.(nextGlobal := st.nextGlobal + 1,
        pending := st.pending[Ids.GlobalId(client, st.nextGlobal) :=
                              Pending(client, LocalId(req.body), isInitialize, now, req.ticket)])
  }

  predicate Overloaded(st: State) {
    |st.pending| >= MAX_PENDING
  }

  function RejectOverload(st: State, client: nat, req: Request): State {
    Push(st, client, Failure(req.ticket, ErrorResponse(LocalId(req.body), OVERLOADED)))
  }

  /** Whether the initialize region ends with the request on its way to the child. */
  predicate InitializeForwards(st: State) {
    st.cached.None? && !st.initializing && !Overloaded(st)
  }

  /** The one lock region of an `initialize` request. */
  function Initialize(st: State, client: nat, req: Request, now: nat): State {
    var marked := MarkInitializePending(st, client);
    if st.cached.Some? then
      Push(marked, client, Reply(req.ticket, SetId(st.cached.value, LocalId(req.body))))
    else if st.initializing then
      marked.(waiting := marked.waiting + [Owed(client, LocalId(req.body), req.ticket)])
    else if Overloaded(st) then RejectOverload(marked, client, req)
    else File(marked, client, req, true, now)
  }

  // ----- server.rs

  function TakePending(st: State, id: string): State {
    st.(pending := st.pending - {id})
  }

  function ReplyFor(o: Owed, msg: Value): (nat, Delivery) {
    (o.client, Reply(o.ticket, SetId(msg, o.localId)))
  }

  function Replies(owed: seq<Owed>, msg: Value): seq<(nat, Delivery)> {
    seq(|owed|, i requires 0 <= i < |owed| => ReplyFor(owed[i], msg))
  }

  /** Caches an initialize response and answers everybody waiting for one. */
  function CacheReply(st: State, msg: Value): State {
    PushAll(st.(cached := Some(msg), initializing := false, waiting := []), Replies(st.waiting, msg))
  }

  /** The channels once some clients have been sent a message. */
  function Heard(outbox: map<nat, seq<Delivery>>, done: set<nat>, msg: Value): map<nat, seq<Delivery>> {
    map c | c in outbox.Keys + done :: if c in done then Sent(outbox, c) + [Broadcast(msg)] else outbox[c]
  }

  function BroadcastAll(st: State, msg: Value): State {
    st.(outbox := Heard(st.outbox, st.clients, msg))
  }

  /** The send on a sender that was cloned out of the table earlier. */
  function SendReply(st: State, p: Pending, msg: Value): State {
    st.(outbox := st.outbox[p.client := Sent(st.outbox, p.client) + [Reply(p.ticket, SetId(msg, p.localId))]])
  }

  function ClearCache(st: State): State {
    st.(cached := None, initializing := false)
  }

  // ----- mod.rs

  predicate IsExpired(p: Pending, now: nat, timeout: nat) {
    now > p.startedAt + timeout
  }

  function ExpiredKeys(st: State, now: nat, timeout: nat): set<string> {
    set g | g in st.pending && IsExpired(st.pending[g], now, timeout)
  }

  function Expire(st: State, now: nat, timeout: nat): State {
    st.(pending := st.pending - ExpiredKeys(st, now, timeout))
  }

  const TIMED_OUT := "request timeout"
}
