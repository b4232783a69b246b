/** Properties of whole runs that concern one table or one counter at a time. */
module Lifecycle {
  import opened Shared
  import opened Protocol
  import opened Frames
  import Forwarding

  // ----- a client that left stays gone

  /** No trace of this client in the shared state. */
  ghost predicate Gone(st: State, c: nat) {
    && c !in st.clients && c !in st.handshakes && c < st.nextClient
    && (forall g :: g in st.pending ==> st.pending[g].client != c)
    && (forall w :: w in st.waiting ==> w.client != c)
  }

  ghost predicate LeftAreGone(s: System) {
    forall c :: c in s.readers && s.readers[c].Left? ==> Gone(s.shared, c)
  }

  lemma UnregisteredIsGone(st: State, c: nat)
    requires c < st.nextClient
    ensures Gone(Unregister(st, c), c)
  {
    WaitersExceptKept(st.waiting, c);
  }

  /** Nothing that does not mention this client brings it back. */
  lemma GoneSurvives(st: State, n: State, c: nat)
    requires Gone(st, c) && n.nextClient >= st.nextClient
    requires c !in n.clients && c !in n.handshakes
    requires forall g :: g in n.pending ==>
               n.pending[g].client != c || (g in st.pending && n.pending[g] == st.pending[g])
    requires forall w :: w in n.waiting ==> w in st.waiting || w.client != c
    ensures Gone(n, c)
  {
  }

  lemma OtherClientKeepsGone(s: System, d: nat, a: ClientAction, n: System, c: nat)
    requires ClientEnabled(s, d, a) && n == ClientStep(s, d, a) && c != d && Gone(s.shared, c)
    ensures Gone(n.shared, c)
  {
    ClientStepPending(s, d, a);
    ClientStepTables(s, d, a);
    ClientStepOtherHandshakes(s, d, a);
    GoneSurvives(s.shared, n.shared, c);
  }

  lemma ClientStepKeepsLeft(s: System, d: nat, a: ClientAction)
    requires LeftAreGone(s) && ClientEnabled(s, d, a) && d < s.shared.nextClient
    ensures LeftAreGone(ClientStep(s, d, a))
  {
    var n := ClientStep(s, d, a);
    ClientStepOtherReaders(s, d, a);
    forall c | c in n.readers && n.readers[c].Left? ensures Gone(n.shared, c) {
      if c != d { OtherClientKeepsGone(s, d, a, n, c); } else { UnregisteredIsGone(s.shared, d); }
    }
  }

  lemma OtherStepKeepsLeft(s: System, l: Label)
    requires LeftAreGone(s) && Enabled(s, l) && !l.ByClient?
    ensures LeftAreGone(Apply(s, l))
  {
    match l
    case ByManager(a) => ManagerStepFrame(s, a);
    case ByRouter(a) => RouterStepFrame(s, a); RouterStepWaiting(s, a);
    case ByReaper(a) => ReaperStepFrame(s, a);
    case _ =>
  }

  /** The router only ever empties the waiting list. */
  lemma RouterStepWaiting(s: System, a: RouterAction)
    requires RouterEnabled(s, a)
    ensures RouterStep(s, a).shared.waiting == s.shared.waiting || RouterStep(s, a).shared.waiting == []
  {
    if a.StoreReply? { CacheOnlySends(s.shared, s.routing.router.msg); }
    if a.HandleReset? { ResetOnlyClears(s.shared, a.order, RESTARTED); }
  }

  lemma {:induction false} RunKeepsLeft(s: System, labels: seq<Label>)
    requires LeftAreGone(s) && Forwarding.FlowInv(s) && IsRun(s, labels)
    ensures LeftAreGone(Final(s, labels))
    decreases |labels|
  {
    if labels != [] {
      if labels[0].ByClient? { ClientStepKeepsLeft(s, labels[0].client, labels[0].action); }
      else { OtherStepKeepsLeft(s, labels[0]); }
      Forwarding.StepKeepsFlow(s, labels[0]);
      RunKeepsLeft(Apply(s, labels[0]), labels[1..]);
    }
  }

  lemma StepKeepsLeftReader(s: System, l: Label, c: nat)
    requires Enabled(s, l) && Forwarding.FlowInv(s) && c in s.readers && s.readers[c].Left?
    ensures c in Apply(s, l).readers && Apply(s, l).readers[c].Left?
  {
    match l
    case ByClient(d, a) => ClientStepOtherReaders(s, d, a);
    case ByManager(a) => ManagerStepFrame(s, a);
    case ByRouter(a) => RouterStepFrame(s, a);
    case ByReaper(a) => ReaperStepFrame(s, a);
    case _ =>
  }

  lemma {:induction false} LeftIsForever(s: System, labels: seq<Label>, c: nat)
    requires Forwarding.FlowInv(s) && IsRun(s, labels) && c in s.readers && s.readers[c].Left?
    ensures c in Final(s, labels).readers && Final(s, labels).readers[c].Left?
    decreases |labels|
  {
    hide Apply, Forwarding.FlowInv;
    if labels != [] {
      StepKeepsLeftReader(s, labels[0], c);
      Forwarding.StepKeepsFlow(s, labels[0]);
      LeftIsForever(Apply(s, labels[0]), labels[1..], c);
    }
  }

  /** Disconnecting is final. Once the reader of a client has run its unregister block, no
      later state of any run has a sender, a handshake, a pending entry or a waiter for that
      client, even if its writer unregistered it earlier while the reader kept filing. */
  lemma DisconnectIsFinal(s: System, labels: seq<Label>, more: seq<Label>, c: nat)
    requires Initial(s) && IsRun(s, labels)
    requires c in Final(s, labels).readers && Final(s, labels).readers[c].Left?
    requires IsRun(Final(s, labels), more)
    ensures Gone(Final(Final(s, labels), more).shared, c)
  {
    hide Enabled, Apply, IsRun, Final;
    var middle := Final(s, labels);
    Forwarding.RunKeepsFlow(s, labels);
    RunKeepsLeft(s, labels);
    RunKeepsLeft(middle, more);
    LeftIsForever(middle, more, c);
  }
}
