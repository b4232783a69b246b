/** The step of a client taken apart: what it does to the shared state, and where its reader
    goes next. */
module Effects {
  import opened Json
  import opened Shared
  import opened Protocol
  import Ids

  /** The lock regions of the client tasks, by their effect. */
  datatype Change =
    | Same
    | Sends(d: Delivery)
    | Claims
    | Completes
    | Buffers(req: Request)
    | Initializes(req: Request)
    | Forwards(req: Request)
    | Unregisters

  function Changed(st: State, c: nat, now: nat, change: Change): State {
    match change
    case Same => st
    case Sends(d) => Push(st, c, d)
    case Claims => st.(serverInitialized := true)
    case Completes => CompleteHandshake(st, c)
    case Buffers(req) => BufferMessage(st, c, req)
    case Initializes(req) => Initialize(st, c, req, now)
    case Forwards(req) => if Overloaded(st) then RejectOverload(st, c, req) else File(st, c, req, false, now)
    case Unregisters => Unregister(st, c)
  }

  function ChangeBy(r: Reader, a: ClientAction): Change {
    match a
    case RejectTooLarge =>
      (match r
       case Asked(req, _) => Sends(Failure(req.ticket, ErrorResponse(LocalId(req.body), TOO_LARGE)))
       case Noted(msg, _) => Sends(Notice(ErrorResponse(LocalId(msg), TOO_LARGE)))
       case _ => Same)
    case ClaimInitialized => Claims
    case FinishHandshake => Completes
    case InitializeRequest => if r.Asked? then Initializes(r.req) else Same
    case BufferRequest => if r.Buffering? then Buffers(r.req) else Same
    case ForwardNext => if r.Flushing? && r.todo != [] then Forwards(r.todo[0]) else Same
    case ReportTimeout => Sends(Notice(ErrorResponse(Null, HANDSHAKE_LATE)))
    case LeaveClient => Unregisters
    case WriterGone => Unregisters
    case _ => Same
  }

  lemma ClientStepShared(s: System, c: nat, a: ClientAction)
    requires ClientEnabled(s, c, a)
    ensures c in s.readers
    ensures ClientStep(s, c, a).shared == Changed(s.shared, c, s.now, ChangeBy(s.readers[c], a))
  {
    hide ErrorResponse, SetId, LocalId, Sent, Ids.GlobalId;
  }

  /** Where a reader that reads `ticket` next goes. */
  function NextReader(r: Reader, st: State, ticket: nat, c: nat, a: ClientAction): Reader {
    match a
    case Receive(msg, tooLarge) =>
      if IsRequest(msg, tooLarge) then Asked(Request(ticket, msg), tooLarge) else Noted(msg, tooLarge)
    case ClaimInitialized => if st.serverInitialized || !r.Noted? then Completing else Announcing(r.msg)
    case Announce => Completing
    case FinishHandshake => Flushing(BufferedFor(st.handshakes, c))
    case InitializeRequest =>
      if InitializeForwards(st) && r.Asked? then Sending(r.req, Ids.GlobalId(c, st.nextGlobal), []) else Idle
    case CheckHandshake =>
      if !r.Asked? then r else if HandshakeComplete(st, c) then Flushing([r.req]) else Buffering(r.req)
    case ForwardNext =>
      if !r.Flushing? || r.todo == [] then r
      else if Overloaded(st) then Flushing(r.todo[1..])
      else Sending(r.todo[0], Ids.GlobalId(c, st.nextGlobal), r.todo[1..])
    case Enqueue => if r.Sending? then Flushing(r.rest) else r
    case EnqueueClosed => if r.Sending? then Flushing(r.rest) else r
    case NoticeTimeout => TimedOut
    case ReportTimeout => Leaving
    case HangUp => Leaving
    case DecodeError => Aborted
    case LeaveClient => Left
    case WriterGone => r
    case _ => Idle
  }

  function ReaderAfter(s: System, c: nat, a: ClientAction): Reader
    requires c in s.readers
  {
    NextReader(s.readers[c], s.shared, |s.book.requests|, c, a)
  }

  lemma ClientStepReader(s: System, c: nat, a: ClientAction)
    requires ClientEnabled(s, c, a)
    ensures c in s.readers
    ensures ClientStep(s, c, a).readers == s.readers[c := ReaderAfter(s, c, a)]
  {
  }

  /** Nothing a client does reaches the clock, the children, the router or the reaper. */
  lemma ClientStepElsewhere(s: System, c: nat, a: ClientAction)
    requires ClientEnabled(s, c, a)
    ensures var n := ClientStep(s, c, a);
      n == s.(shared := n.shared, readers := n.readers, queue := n.queue, book := n.book)
  {
  }
}
