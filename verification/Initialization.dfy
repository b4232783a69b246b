/** Who answers an `initialize`: the child, the cache, or somebody else's response. */
module Initialization {
  import opened Wrappers
  import opened Json
  import opened Shared
  import opened Protocol
  import opened Effects
  import opened Frames
  import Ids
  import Ledger

  // ----- fan-out

  /** The waiters of one client, in the order they started waiting. */
  function WaitersOf(waiting: seq<Owed>, c: nat): seq<Owed> {
    if waiting == [] then []
    else
      WaitersOf(waiting[..|waiting| - 1], c) +
      if waiting[|waiting| - 1].client == c then [waiting[|waiting| - 1]] else []
  }

  /** One answer to each request in the list, in order: the message with the id that is owed. A
      message that is no object has no id to replace. */
  ghost predicate Answering(ds: seq<Delivery>, owed: seq<Owed>, msg: Value) {
    && |ds| == |owed|
    && forall i :: 0 <= i < |ds| ==>
         && ds[i].Reply? && ds[i].ticket == owed[i].ticket
         && if msg.Obj? then OnlyIdDiffers(msg, ds[i].msg, owed[i].localId) else ds[i].msg == msg
  }

  function AnswersTo(owed: seq<Owed>, msg: Value): seq<Delivery> {
    seq(|owed|, i requires 0 <= i < |owed| => Reply(owed[i].ticket, SetId(msg, owed[i].localId)))
  }

  lemma AnswersAnswer(owed: seq<Owed>, msg: Value)
    ensures Answering(AnswersTo(owed, msg), owed, msg)
  {
    if msg.Obj? {
      forall i | 0 <= i < |owed| { SetIdReplacesOnlyId(msg, owed[i].localId); }
    }
  }

  lemma {:induction false} RepliesPerClient(waiting: seq<Owed>, msg: Value, c: nat)
    ensures Ledger.For(Replies(waiting, msg), c) == AnswersTo(WaitersOf(waiting, c), msg)
  {
    if waiting != [] {
      var init := waiting[..|waiting| - 1];
      RepliesPerClient(init, msg, c);
      assert Replies(waiting, msg)[..|waiting| - 1] == Replies(init, msg);
    }
  }

  /** Everything put on a channel in between answers these requests. */
  ghost predicate Adds(before: seq<Delivery>, after: seq<Delivery>, owed: seq<Owed>, msg: Value) {
    before <= after && Answering(after[|before|..], owed, msg)
  }

  /** When the response to an initialize arrives, every registered client that waited for one
      is sent that response under its own ids, in the order it asked; nobody else is sent
      anything, nobody is left waiting and later requests find it cached. */
  lemma WaitersAreAnswered(s: System, c: nat)
    requires s.routing.router.Matched? && s.shared.clients <= s.shared.outbox.Keys
    ensures var n, msg := StoreReplyStep(s), s.routing.router.msg;
      && n.shared.cached == Some(msg) && n.shared.waiting == [] && !n.shared.initializing
      && n.shared.pending == s.shared.pending
      && Adds(Sent(s.shared.outbox, c), Sent(n.shared.outbox, c),
              if c in s.shared.clients then WaitersOf(s.shared.waiting, c) else [], msg)
  {
    var msg := s.routing.router.msg;
    var owed := if c in s.shared.clients then WaitersOf(s.shared.waiting, c) else [];
    Ledger.PushAllDelivers(s.shared.(cached := Some(msg), initializing := false, waiting := []),
                           Replies(s.shared.waiting, msg), c);
    RepliesPerClient(s.shared.waiting, msg, c);
    AnswersAnswer(owed, msg);
    assert Sent(StoreReplyStep(s).shared.outbox, c) == Sent(s.shared.outbox, c) + AnswersTo(owed, msg);
  }

  // ----- nobody waits

  lemma StepKeepsNobodyWaiting(s: System, l: Label)
    requires Enabled(s, l) && !s.shared.initializing && s.shared.waiting == []
    ensures !Apply(s, l).shared.initializing && Apply(s, l).shared.waiting == []
  {
    match l
    case ByClient(c, a) => ClientStepKeepsNobodyWaiting(s, c, a);
    case ByManager(a) => ManagerStepFrame(s, a);
    case ByRouter(a) => RouterStepKeepsNobodyWaiting(s, a);
    case ByReaper(a) => ReaperStepFrame(s, a);
    case _ =>
  }

  lemma RouterStepKeepsNobodyWaiting(s: System, a: RouterAction)
    requires RouterEnabled(s, a) && !s.shared.initializing && s.shared.waiting == []
    ensures !RouterStep(s, a).shared.initializing && RouterStep(s, a).shared.waiting == []
  {
    if a.StoreReply? { CacheOnlySends(s.shared, s.routing.router.msg); }
    if a.HandleReset? { ResetOnlyClears(s.shared, a.order, RESTARTED); }
  }

  lemma ChangedKeepsNobodyWaiting(st: State, c: nat, now: nat, change: Change)
    requires !st.initializing && st.waiting == []
    ensures var n := Changed(st, c, now, change); !n.initializing && n.waiting == []
  {
    hide ErrorResponse, SetId, LocalId, Sent, Ids.GlobalId;
  }

  lemma ClientStepKeepsNobodyWaiting(s: System, c: nat, a: ClientAction)
    requires ClientEnabled(s, c, a) && !s.shared.initializing && s.shared.waiting == []
    ensures !ClientStep(s, c, a).shared.initializing && ClientStep(s, c, a).shared.waiting == []
  {
    hide ClientStep, ClientEnabled, Changed;
    ClientStepShared(s, c, a);
    ChangedKeepsNobodyWaiting(s.shared, c, s.now, ChangeBy(s.readers[c], a));
  }

  lemma {:induction false} RunKeepsNobodyWaiting(s: System, labels: seq<Label>)
    requires IsRun(s, labels) && !s.shared.initializing && s.shared.waiting == []
    ensures !Final(s, labels).shared.initializing && Final(s, labels).shared.waiting == []
    decreases |labels|
  {
    hide Enabled, Apply;
    if labels != [] {
      StepKeepsNobodyWaiting(s, labels[0]);
      RunKeepsNobodyWaiting(Apply(s, labels[0]), labels[1..]);
    }
  }

  /** Started as the daemon starts, no run ever has a waiter, and an initialize request goes to
      the child exactly when no response is cached and the pending table is not full: a first
      initialize that is still unanswered does not hold a second one back. */
  lemma InitializeGoesToChildIff(s: System, labels: seq<Label>, c: nat)
    requires Initial(s) && IsRun(s, labels) && !s.shared.initializing
    requires ClientEnabled(Final(s, labels), c, InitializeRequest)
    ensures var n := Final(s, labels); var m := ClientStep(n, c, InitializeRequest);
      && n.shared.waiting == [] && m.shared.waiting == []
      && (m.readers[c].Sending? <==> n.shared.cached.None? && |n.shared.pending| < 2048)
      && (m.readers[c].Sending? <==> m.shared.pending != n.shared.pending)
  {
    hide Enabled, Apply, IsRun, Final;
    RunKeepsNobodyWaiting(s, labels);
    var n := Final(s, labels);
    var id := Ids.GlobalId(c, n.shared.nextGlobal);
    if InitializeForwards(n.shared) {
      var m := ClientStep(n, c, InitializeRequest);
      assert m.shared.nextGlobal == n.shared.nextGlobal + 1;
      FiledIsNew(s, labels, c);
    }
  }

  /** Ids are only handed out once, so filing a request always adds an entry. */
  lemma FiledIsNew(s: System, labels: seq<Label>, c: nat)
    requires Initial(s) && IsRun(s, labels)
    ensures Ids.GlobalId(c, Final(s, labels).shared.nextGlobal) !in Final(s, labels).shared.pending
  {
    hide Enabled, Apply, IsRun, Final;
    Ledger.RunKeepsLedger(s, labels);
    Ids.NextIdIsFresh(c, Final(s, labels).shared.nextGlobal);
  }

  // ----- once cached

  predicate Clears(l: Label) {
    (l.ByManager? && l.step.ClearState?) || (l.ByRouter? && l.turn.HandleReset?)
  }

  /** Every initialize request outstanding now already was. */
  ghost predicate NoNewInitialize(before: map<string, Pending>, after: map<string, Pending>) {
    forall g :: g in after && after[g].isInitialize ==> g in before && after[g] == before[g]
  }

  lemma ChangedServesFromCache(st: State, c: nat, now: nat, change: Change)
    requires st.cached.Some?
    ensures var n := Changed(st, c, now, change); n.cached == st.cached && NoNewInitialize(st.pending, n.pending)
  {
    hide Initialize, ErrorResponse, SetId, LocalId, Sent, Ids.GlobalId;
    if change.Initializes? { InitializeParts(st, c, change.req, now); }
  }

  lemma ClientStepServesFromCache(s: System, c: nat, a: ClientAction)
    requires ClientEnabled(s, c, a) && s.shared.cached.Some?
    ensures var n := ClientStep(s, c, a);
      n.shared.cached == s.shared.cached && NoNewInitialize(s.shared.pending, n.shared.pending)
  {
    hide ClientStep, ClientEnabled, Changed;
    ClientStepShared(s, c, a);
    ChangedServesFromCache(s.shared, c, s.now, ChangeBy(s.readers[c], a));
  }

  lemma StepServesFromCache(s: System, l: Label)
    requires Enabled(s, l) && s.shared.cached.Some? && !Clears(l)
    ensures Apply(s, l).shared.cached.Some? && NoNewInitialize(s.shared.pending, Apply(s, l).shared.pending)
  {
    match l
    case ByClient(c, a) => ClientStepServesFromCache(s, c, a);
    case ByManager(a) => ManagerStepFrame(s, a);
    case ByRouter(a) => RouterStepFrame(s, a); if a.StoreReply? { CacheOnlySends(s.shared, s.routing.router.msg); }
    case ByReaper(a) => ReaperStepFrame(s, a);
    case _ =>
  }

  /** From the moment a response is cached until the cache is next cleared, no client's
      initialize goes to the child, whatever else happens. */
  lemma {:induction false} CachedInitializeIsServedLocally(s: System, labels: seq<Label>)
    requires IsRun(s, labels) && s.shared.cached.Some?
    requires forall i :: 0 <= i < |labels| ==> !Clears(labels[i])
    ensures Final(s, labels).shared.cached.Some?
    ensures NoNewInitialize(s.shared.pending, Final(s, labels).shared.pending)
    decreases |labels|
  {
    hide Enabled, Apply;
    if labels != [] {
      StepServesFromCache(s, labels[0]);
      CachedInitializeIsServedLocally(Apply(s, labels[0]), labels[1..]);
    }
  }
}
