/** What becomes of a request that was put on file: with the reaper on time, its client is answered. */
module Deadlines {
  import opened Wrappers
  import opened Json
  import opened Shared
  import opened Protocol
  import opened Frames
  import opened Ledger
  import Ids
  import Timing

  /** Taken off the table for good. */
  predicate IsLater(p: Place) {
    p.AtRouter? || p.AtReaper? || p.AtChannel? || p.Lost?
  }

  /** The request is still on file since then, or has been taken off the table. */
  ghost predicate FiledSince(s: System, t: nat, started: nat) {
    && t < |s.book.location|
    && match s.book.location[t]
       case AtPending(g) => g in s.shared.pending && s.shared.pending[g].startedAt == started
       case p => IsLater(p)
  }

  predicate IsFiled(p: Place) {
    p.AtPending? || IsLater(p)
  }

  /** The request is where it was, or was taken off the table. */
  predicate MovesOn(before: seq<Place>, after: seq<Place>, t: nat) {
    t < |before| <= |after| && IsFiled(before[t]) ==> after[t] == before[t] || IsLater(after[t])
  }

  lemma HeldIsNotFiled(s: System, c: nat)
    requires LedgerInv(s) && c in s.readers && Held(s.readers[c]) != []
    ensures At(s.book.location, Held(s.readers[c])[0].ticket, AtReader)
  {
    HeadIsOwn(s, c);
  }

  /** These steps move requests of their own accord, all others only the first in hand. */
  predicate MovesMany(a: ClientAction) {
    a.Receive? || a.FinishHandshake? || a.LeaveClient? || a.WriterGone?
  }

  lemma ClientMovesHead(s: System, c: nat, a: ClientAction, t: nat)
    requires ClientEnabled(s, c, a) && !MovesMany(a) && t < |s.book.location|
    ensures var n := ClientStep(s, c, a);
      && |n.book.location| == |s.book.location|
      && (n.book.location[t] == s.book.location[t] || (Held(s.readers[c]) != [] && Held(s.readers[c])[0].ticket == t))
  {
    hide Initialize, File, RejectOverload, RejectLarge, BufferMessage, Push, ErrorResponse, SetId, LocalId,
         Ids.GlobalId,
         Offer, HandshakeComplete, Answered;
  }

  lemma ClientMovesMany(s: System, c: nat, a: ClientAction, t: nat)
    requires ClientEnabled(s, c, a) && MovesMany(a) && t < |s.book.location|
    ensures var n := ClientStep(s, c, a);
      |s.book.location| <= |n.book.location| && MovesOn(s.book.location, n.book.location, t)
  {
    hide Unregister, CompleteHandshake, BufferedFor, IsRequest;
  }

  lemma ClientMovesOn(s: System, c: nat, a: ClientAction, t: nat)
    requires LedgerInv(s) && ClientEnabled(s, c, a) && t < |s.book.location|
    ensures var n := ClientStep(s, c, a);
      |s.book.location| <= |n.book.location| && MovesOn(s.book.location, n.book.location, t)
  {
    assert c in s.readers;
    hide LedgerInv, ClientStep, ClientEnabled;
    if MovesMany(a) {
      ClientMovesMany(s, c, a, t);
    } else {
      ClientMovesHead(s, c, a, t);
      if Held(s.readers[c]) != [] { HeldIsNotFiled(s, c); }
    }
  }

  lemma RouterMovesOn(s: System, a: RouterAction, t: nat)
    requires RouterEnabled(s, a) && t < |s.book.location|
    ensures var n := RouterStep(s, a);
      |s.book.location| == |n.book.location| && MovesOn(s.book.location, n.book.location, t)
  {
    hide CacheReply, Reset, BroadcastAll, SendReply, TakePending, Enumerates;
  }

  lemma ReaperMovesOn(s: System, a: ReaperAction, t: nat)
    requires ReaperEnabled(s, a) && t < |s.book.location|
    ensures var n := ReaperStep(s, a);
      |s.book.location| == |n.book.location| && MovesOn(s.book.location, n.book.location, t)
  {
    hide Expire, PushAll, Failures, Enumerates;
  }

  lemma StepMovesOn(s: System, l: Label, t: nat)
    requires LedgerInv(s) && Enabled(s, l) && t < |s.book.location|
    ensures var n := Apply(s, l);
      |s.book.location| <= |n.book.location| && MovesOn(s.book.location, n.book.location, t)
  {
    hide LedgerInv, RouterStep, ReaperStep, ClientStep;
    match l
    case ByClient(c, a) => ClientMovesOn(s, c, a, t);
    case ByManager(a) => ManagerStepFrame(s, a);
    case ByRouter(a) => RouterMovesOn(s, a, t);
    case ByReaper(a) => ReaperMovesOn(s, a, t);
    case _ =>
  }

  ghost predicate EntriesStay(before: map<string, Pending>, after: map<string, Pending>) {
    forall g :: g in before && g in after ==> after[g] == before[g]
  }

  lemma StepKeepsEntries(s: System, l: Label)
    requires LedgerInv(s) && Enabled(s, l)
    ensures EntriesStay(s.shared.pending, Apply(s, l).shared.pending)
  {
    match l
    case ByClient(c, a) =>
      ClientStepPending(s, c, a);
      Ids.NextIdIsFresh(c, s.shared.nextGlobal);
    case ByManager(a) => ManagerStepFrame(s, a);
    case ByRouter(a) => RouterStepFrame(s, a);
    case ByReaper(a) => ReaperStepFrame(s, a);
    case _ =>
  }

  lemma StepKeepsFiledSince(s: System, l: Label, t: nat, started: nat)
    requires LedgerInv(s) && FiledSince(s, t, started) && Enabled(s, l)
    ensures LedgerInv(Apply(s, l)) && FiledSince(Apply(s, l), t, started)
  {
    hide Enabled, Apply;
    StepKeepsLedger(s, l);
    StepMovesOn(s, l, t);
    StepKeepsEntries(s, l);
  }

  lemma {:induction false} RunKeepsFiledSince(s: System, labels: seq<Label>, t: nat, started: nat)
    requires LedgerInv(s) && FiledSince(s, t, started) && IsRun(s, labels)
    ensures LedgerInv(Final(s, labels)) && FiledSince(Final(s, labels), t, started)
    decreases |labels|
  {
    hide Enabled, Apply, LedgerInv, FiledSince;
    if labels != [] {
      StepKeepsFiledSince(s, labels[0], t, started);
      RunKeepsFiledSince(Apply(s, labels[0]), labels[1..], t, started);
    }
  }

  /** How many copies of the request there are on its client's channel, and how many about to be
      put there. */
  function Answers(s: System, c: nat, t: nat): nat {
    InChannel(s.shared.outbox, c, t)
  }

  function NearlyAnswers(s: System, t: nat): nat {
    InRouter(s.routing.router, t) + InReaper(s.reaping.hand, t)
  }

  lemma LaterIsAnswered(s: System, t: nat)
    requires LedgerInv(s) && t < |s.book.requests| && s.book.requests[t].client in s.shared.clients
    requires t < |s.book.location| && IsLater(s.book.location[t])
    ensures Answers(s, s.book.requests[t].client, t) + NearlyAnswers(s, t) == 1
  {
    var c := s.book.requests[t].client;
    assert InChannel(s.shared.outbox, c, t) == Ind(Owned(s.book.requests, s.book.location, c, t, AtChannel));
    assert InRouter(s.routing.router, t) == Ind(At(s.book.location, t, AtRouter));
    assert InReaper(s.reaping.hand, t) == Ind(At(s.book.location, t, AtReaper));
  }

  lemma RestingAnswersNobody(s: System, t: nat)
    requires s.routing.router.Listening? && s.reaping.hand == []
    ensures NearlyAnswers(s, t) == 0
  {
  }

  lemma FiledNow(s: System, g: string)
    requires LedgerInv(s) && g in s.shared.pending
    ensures FiledSince(s, s.shared.pending[g].ticket, s.shared.pending[g].startedAt)
  {
  }

  lemma OverdueIsLater(s: System, t: nat, started: nat, gap: nat)
    requires LedgerInv(s) && FiledSince(s, t, started) && t < |s.book.requests|
    requires Timing.TimingInv(s) && s.config.reaperGap == Some(gap)
    requires s.book.requests[t].client in s.shared.clients && s.now > started + s.config.requestTimeout + gap
    ensures IsLater(s.book.location[t])
  {
  }

  /** A client can rely on an answer. In every run in which reaper ticks are at most `gap` apart:
      once a request was put on file, and more than the timeout and the gap have passed since, an
      answer to it, and only one, is on its client's channel or in the hands of the router or the
      reaper, as long as the client is registered; and when those two are at rest, it is on the
      channel. */
  lemma OverdueIsAnswered(s: System, labels: seq<Label>, more: seq<Label>, g: string, gap: nat)
    requires Initial(s) && IsRun(s, labels) && s.config.reaperGap == Some(gap)
    requires g in Final(s, labels).shared.pending && IsRun(Final(s, labels), more)
    ensures var m, n := Final(s, labels), Final(Final(s, labels), more);
      var t := m.shared.pending[g].ticket;
      && t < |n.book.requests|
      && var c := n.book.requests[t].client;
         c in n.shared.clients && n.now > m.shared.pending[g].startedAt + s.config.requestTimeout + gap ==>
           && Answers(n, c, t) + NearlyAnswers(n, t) == 1
           && (n.routing.router.Listening? && n.reaping.hand == [] ==> Answers(n, c, t) == 1)
  {
    hide Enabled, Apply, IsRun, Final;
    RunKeepsLedger(s, labels);
    Timing.RunKeepsTiming(s, labels);
    var m := Final(s, labels);
    var t, started := m.shared.pending[g].ticket, m.shared.pending[g].startedAt;
    FiledNow(m, g);
    RunKeepsFiledSince(m, more, t, started);
    Timing.RunKeepsTiming(m, more);
    var n := Final(m, more);
    hide Answers, NearlyAnswers, LedgerInv, FiledSince, Timing.TimingInv;
    if n.book.requests[t].client in n.shared.clients && n.now > started + s.config.requestTimeout + gap {
      OverdueIsLater(n, t, started, gap);
      LaterIsAnswered(n, t);
      if n.routing.router.Listening? && n.reaping.hand == [] { RestingAnswersNobody(n, t); }
    }
  }
}
