/** `notifications/initialized` reaches the queue at most once. */
module Announcement {
  import opened Json
  import opened Shared
  import opened Protocol
  import opened Effects
  import opened Frames
  import Forwarding
  import Queueing

  predicate IsAnnouncement(item: Item) {
    Method(item.body) == INITIALIZED
  }

  function Announcements(enqueued: seq<Item>): nat {
    if enqueued == [] then 0
    else
      Announcements(enqueued[..|enqueued| - 1]) + if IsAnnouncement(enqueued[|enqueued| - 1]) then 1 else 0
  }

  lemma AnnouncementsOffer(enqueued: seq<Item>, item: Item)
    ensures Announcements(enqueued + [item]) == Announcements(enqueued) + if IsAnnouncement(item) then 1 else 0
  {
    assert (enqueued + [item])[..|enqueued|] == enqueued;
  }

  /** Either nobody has claimed the announcement, or one reader is about to make it, or it is
      over. */
  ghost predicate ClaimedOnce(readers: map<nat, Reader>, enqueued: seq<Item>, claimed: bool) {
    && Announcements(enqueued) <= (if claimed then 1 else 0)
    && (forall c :: c in readers && readers[c].Announcing? ==> claimed && Announcements(enqueued) == 0)
    && (forall c, d :: c in readers && d in readers && readers[c].Announcing? && readers[d].Announcing? ==> c == d)
  }

  /** A request that will be forwarded is never a handshake notification. */
  ghost predicate RequestsAreRequests(requests: seq<Arrival>) {
    forall t :: 0 <= t < |requests| ==> IsRequest(requests[t].body, requests[t].tooLarge)
  }

  ghost predicate AnnouncementInv(s: System) {
    && ClaimedOnce(s.readers, s.queue.enqueued, s.shared.serverInitialized)
    && RequestsAreRequests(s.book.requests)
  }

  lemma OfferKeepsClaim(readers: map<nat, Reader>, enqueued: seq<Item>, item: Item, claimed: bool)
    requires ClaimedOnce(readers, enqueued, claimed) && !IsAnnouncement(item)
    ensures ClaimedOnce(readers, enqueued + [item], claimed)
  {
    AnnouncementsOffer(enqueued, item);
  }

  lemma ReaderKeepsClaim(readers: map<nat, Reader>, c: nat, r: Reader, enqueued: seq<Item>, claimed: bool)
    requires ClaimedOnce(readers, enqueued, claimed) && !r.Announcing?
    ensures ClaimedOnce(readers[c := r], enqueued, claimed)
  {
  }

  lemma AnnounceKeepsClaim(readers: map<nat, Reader>, c: nat, r: Reader, enqueued: seq<Item>, item: Item, claimed: bool)
    requires ClaimedOnce(readers, enqueued, claimed) && c in readers && readers[c].Announcing? && !r.Announcing?
    ensures ClaimedOnce(readers[c := r], enqueued + [item], claimed)
    ensures ClaimedOnce(readers[c := r], enqueued, claimed)
  {
    AnnouncementsOffer(enqueued, item);
  }

  predicate OffersToQueue(a: ClientAction) {
    a.Announce? || a.ForwardNotice? || a.Enqueue?
  }

  lemma OfferingKeepsClaim(s: System, c: nat, a: ClientAction)
    requires AnnouncementInv(s) && ClientEnabled(s, c, a) && OffersToQueue(a)
    requires Forwarding.ReaderShape(s.book.requests, c, s.readers[c])
    ensures var n := ClientStep(s, c, a); ClaimedOnce(n.readers, n.queue.enqueued, n.shared.serverInitialized)
  {
    var r, claimed, enqueued := s.readers[c], s.shared.serverInitialized, s.queue.enqueued;
    match a
    case Announce =>
      AnnounceKeepsClaim(s.readers, c, Completing, enqueued, Item(FromHandshake(c), r.msg), claimed);
    case ForwardNotice =>
      OfferKeepsClaim(s.readers, enqueued, Item(FromNotice(c), r.msg), claimed);
      ReaderKeepsClaim(s.readers, c, Idle, enqueued, claimed);
      ReaderKeepsClaim(s.readers, c, Idle, enqueued + [Item(FromNotice(c), r.msg)], claimed);
    case Enqueue =>
      var item := Item(FromRequest(r.req.ticket), SetId(r.req.body, Str(r.id)));
      OfferKeepsClaim(s.readers, enqueued, item, claimed);
      ReaderKeepsClaim(s.readers, c, Flushing(r.rest), enqueued + [item], claimed);
  }

  lemma ChangedClaim(st: State, c: nat, now: nat, change: Change)
    ensures Changed(st, c, now, change).serverInitialized == (st.serverInitialized || change.Claims?)
  {
    hide ErrorResponse, SetId, LocalId, Sent;
  }

  lemma QueueUnlessOffered(s: System, c: nat, a: ClientAction)
    requires ClientEnabled(s, c, a) && !OffersToQueue(a)
    ensures ClientStep(s, c, a).queue == s.queue
  {
  }

  lemma ClientStepQuiet(s: System, c: nat, a: ClientAction)
    requires ClientEnabled(s, c, a) && !OffersToQueue(a) && !a.ClaimInitialized?
    ensures var n := ClientStep(s, c, a);
      && n.queue.enqueued == s.queue.enqueued && n.shared.serverInitialized == s.shared.serverInitialized
      && (n.readers == s.readers || (n.readers == s.readers[c := n.readers[c]] && !n.readers[c].Announcing?))
  {
    hide ClientStep, Changed;
    QueueUnlessOffered(s, c, a);
    ClientStepShared(s, c, a);
    ChangedClaim(s.shared, c, s.now, ChangeBy(s.readers[c], a));
    ClientStepReader(s, c, a);
  }

  lemma ClientStepRequests(s: System, c: nat, a: ClientAction)
    requires RequestsAreRequests(s.book.requests) && ClientEnabled(s, c, a)
    ensures RequestsAreRequests(ClientStep(s, c, a).book.requests)
  {
    if !a.Receive? { assert ClientStep(s, c, a).book.requests == s.book.requests; }
  }

  lemma ClientStepKeepsClaim(s: System, c: nat, a: ClientAction)
    requires AnnouncementInv(s) && ClientEnabled(s, c, a)
    requires Forwarding.ReaderShape(s.book.requests, c, s.readers[c])
    ensures AnnouncementInv(ClientStep(s, c, a))
  {
    ClientStepRequests(s, c, a);
    if OffersToQueue(a) { OfferingKeepsClaim(s, c, a); }
    else if !a.ClaimInitialized? {
      ClientStepQuiet(s, c, a);
      var n := ClientStep(s, c, a);
      if n.readers != s.readers {
        ReaderKeepsClaim(s.readers, c, n.readers[c], s.queue.enqueued, s.shared.serverInitialized);
      }
    }
  }

  lemma StepKeepsAnnouncement(s: System, l: Label)
    requires AnnouncementInv(s) && Forwarding.FlowInv(s) && Enabled(s, l)
    ensures AnnouncementInv(Apply(s, l))
  {
    match l
    case ByClient(c, a) => assert Forwarding.Flow(s, c); ClientStepKeepsClaim(s, c, a);
    case ByManager(a) => ManagerStepFrame(s, a);
    case ByRouter(a) => RouterStepFrame(s, a);
    case ByReaper(a) => ReaperStepFrame(s, a);
    case Connect =>
      ReaderKeepsClaim(s.readers, s.shared.nextClient, Idle, s.queue.enqueued, s.shared.serverInitialized);
    case Probe =>
      OfferKeepsClaim(s.readers, s.queue.enqueued, Item(FromProbe, ProbeMessage(s.nextProbe)),
                      s.shared.serverInitialized);
    case _ =>
  }

  lemma {:induction false} RunKeepsAnnouncement(s: System, labels: seq<Label>)
    requires AnnouncementInv(s) && Forwarding.FlowInv(s) && IsRun(s, labels)
    ensures AnnouncementInv(Final(s, labels))
    decreases |labels|
  {
    hide Enabled, Apply, AnnouncementInv;
    if labels != [] {
      StepKeepsAnnouncement(s, labels[0]);
      Forwarding.StepKeepsFlow(s, labels[0]);
      RunKeepsAnnouncement(Apply(s, labels[0]), labels[1..]);
    }
  }

  lemma {:induction false} TwoAreCounted(enqueued: seq<Item>, i: nat, j: nat)
    requires i < j < |enqueued| && IsAnnouncement(enqueued[i]) && IsAnnouncement(enqueued[j])
    ensures Announcements(enqueued) >= 2
  {
    hide IsAnnouncement;
    var rest := enqueued[..|enqueued| - 1];
    if j < |rest| { TwoAreCounted(rest, i, j); } else { OneIsCounted(rest, i); }
  }

  lemma {:induction false} OneIsCounted(enqueued: seq<Item>, i: nat)
    requires i < |enqueued| && IsAnnouncement(enqueued[i])
    ensures Announcements(enqueued) >= 1
  {
    hide IsAnnouncement;
    if i < |enqueued| - 1 { OneIsCounted(enqueued[..|enqueued| - 1], i); }
  }

  /** Of everything that ever enters the queue, over all clients and all children, at most one
      message is `notifications/initialized`, and none is before a client has sent one. */
  lemma AnnouncedAtMostOnce(s: System, labels: seq<Label>, i: nat, j: nat)
    requires Initial(s) && IsRun(s, labels)
    requires var q := Final(s, labels).queue.enqueued;
      i < |q| && j < |q| && IsAnnouncement(q[i]) && IsAnnouncement(q[j])
    ensures i == j && Final(s, labels).shared.serverInitialized
  {
    hide Enabled, Apply, IsRun, Final;
    RunKeepsAnnouncement(s, labels);
    var q := Final(s, labels).queue.enqueued;
    OneIsCounted(q, i);
    if i < j { TwoAreCounted(q, i, j); }
    if j < i { TwoAreCounted(q, j, i); }
  }

  /** So of all children a run starts at most one is ever told that a client is initialized, and
      it is told once. */
  lemma AtMostOneChildIsTold(s: System, labels: seq<Label>, i: nat, j: nat)
    requires Initial(s) && IsRun(s, labels)
    requires var attempts := Final(s, labels).child.attempts;
      i < |attempts| && j < |attempts| && IsAnnouncement(attempts[i].item) && IsAnnouncement(attempts[j].item)
    ensures i == j
  {
    hide Enabled, Apply, IsRun, Final;
    Queueing.QueueOrderSurvivesRestarts(s, labels);
    AnnouncedAtMostOnce(s, labels, i, j);
  }
}
