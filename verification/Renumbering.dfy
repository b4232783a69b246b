/** What the child is asked: a client's own message, under an id no other message has. */
module Renumbering {
  import opened Wrappers
  import opened Json
  import opened Shared
  import opened Protocol
  import opened Frames
  import Ids
  import Forwarding
  import Announcement

  /** An id with a sequence number below the limit, made for this client. */
  ghost predicate MadeFor(id: string, c: nat, limit: nat) {
    exists n: nat :: n < limit && id == Ids.GlobalId(c, n)
  }

  /** The queued message is the client's, with nothing but the id replaced. */
  ghost predicate Renumbered(requests: seq<Arrival>, item: Item, limit: nat)
    requires item.origin.FromRequest?
  {
    var t := item.origin.ticket;
    && t < |requests| && !requests[t].tooLarge
    && exists id :: MadeFor(id, requests[t].client, limit) && OnlyIdDiffers(requests[t].body, item.body, Str(id))
  }

  ghost predicate ItemsRenumbered(enqueued: seq<Item>, requests: seq<Arrival>, limit: nat) {
    forall i :: 0 <= i < |enqueued| && enqueued[i].origin.FromRequest? ==> Renumbered(requests, enqueued[i], limit)
  }

  function ItemId(item: Item): Option<Value> {
    Get(item.body, "id")
  }

  ghost predicate ItemsDiffer(enqueued: seq<Item>) {
    forall i, j :: 0 <= i < j < |enqueued| && enqueued[i].origin.FromRequest? && enqueued[j].origin.FromRequest? ==>
      ItemId(enqueued[i]) != ItemId(enqueued[j])
  }

  ghost predicate NotQueued(enqueued: seq<Item>, id: string) {
    forall i :: 0 <= i < |enqueued| && enqueued[i].origin.FromRequest? ==> ItemId(enqueued[i]) != Some(Str(id))
  }

  ghost predicate SendersDiffer(readers: map<nat, Reader>) {
    forall c, d :: c in readers && d in readers && c != d && readers[c].Sending? && readers[d].Sending? ==>
      readers[c].id != readers[d].id
  }

  ghost predicate SenderOk(r: Reader, c: nat, enqueued: seq<Item>, limit: nat) {
    r.Sending? ==> MadeFor(r.id, c, limit) && NotQueued(enqueued, r.id)
  }

  ghost predicate NumberInv(readers: map<nat, Reader>, enqueued: seq<Item>, requests: seq<Arrival>, limit: nat) {
    && ItemsRenumbered(enqueued, requests, limit)
    && ItemsDiffer(enqueued)
    && SendersDiffer(readers)
    && forall c :: c in readers ==> SenderOk(readers[c], c, enqueued, limit)
  }

  ghost predicate AllObjects(requests: seq<Arrival>) {
    forall t :: 0 <= t < |requests| ==> requests[t].body.Obj?
  }

  lemma RequestsAreObjects(requests: seq<Arrival>)
    requires Announcement.RequestsAreRequests(requests)
    ensures AllObjects(requests)
  {
  }

  /** A new id is nobody's. */
  lemma NewIdIsFree(readers: map<nat, Reader>, enqueued: seq<Item>, requests: seq<Arrival>, limit: nat, c: nat)
    requires NumberInv(readers, enqueued, requests, limit) && AllObjects(requests)
    ensures NotQueued(enqueued, Ids.GlobalId(c, limit))
    ensures forall d :: d in readers && readers[d].Sending? ==> readers[d].id != Ids.GlobalId(c, limit)
  {
    var id := Ids.GlobalId(c, limit);
    forall i | 0 <= i < |enqueued| && enqueued[i].origin.FromRequest? ensures ItemId(enqueued[i]) != Some(Str(id)) {
      var t := enqueued[i].origin.ticket;
      assert Renumbered(requests, enqueued[i], limit);
      var g :| MadeFor(g, requests[t].client, limit) && OnlyIdDiffers(requests[t].body, enqueued[i].body, Str(g));
      var n: nat :| n < limit && g == Ids.GlobalId(requests[t].client, n);
      if g == id { Ids.GlobalIdInjective(requests[t].client, n, c, limit); }
    }
    forall d | d in readers && readers[d].Sending? ensures readers[d].id != id {
      assert SenderOk(readers[d], d, enqueued, limit);
      var n: nat :| n < limit && readers[d].id == Ids.GlobalId(d, n);
      if readers[d].id == id { Ids.GlobalIdInjective(d, n, c, limit); }
    }
  }

  lemma LimitGrows(readers: map<nat, Reader>, enqueued: seq<Item>, requests: seq<Arrival>, limit: nat)
    requires NumberInv(readers, enqueued, requests, limit)
    ensures NumberInv(readers, enqueued, requests, limit + 1)
  {
    assert forall id, c :: MadeFor(id, c, limit) ==> MadeFor(id, c, limit + 1);
    forall i | 0 <= i < |enqueued| && enqueued[i].origin.FromRequest?
      ensures Renumbered(requests, enqueued[i], limit + 1) {
      assert Renumbered(requests, enqueued[i], limit);
    }
    forall c | c in readers ensures SenderOk(readers[c], c, enqueued, limit + 1) {
      assert SenderOk(readers[c], c, enqueued, limit);
    }
  }

  lemma ReaderRests(
    readers: map<nat, Reader>, c: nat, r: Reader, enqueued: seq<Item>, requests: seq<Arrival>, limit: nat)
    requires NumberInv(readers, enqueued, requests, limit) && !r.Sending?
    ensures NumberInv(readers[c := r], enqueued, requests, limit)
  {
    var more := readers[c := r];
    forall d | d in more ensures SenderOk(more[d], d, enqueued, limit) {
      if d != c { assert SenderOk(readers[d], d, enqueued, limit); }
    }
  }

  lemma ReaderSends(
    readers: map<nat, Reader>, c: nat, r: Reader, enqueued: seq<Item>, requests: seq<Arrival>, limit: nat)
    requires NumberInv(readers, enqueued, requests, limit) && AllObjects(requests)
    requires r.Sending? && r.id == Ids.GlobalId(c, limit)
    ensures NumberInv(readers[c := r], enqueued, requests, limit + 1)
  {
    NewIdIsFree(readers, enqueued, requests, limit, c);
    LimitGrows(readers, enqueued, requests, limit);
    var more := readers[c := r];
    assert MadeFor(r.id, c, limit + 1);
    forall d | d in more ensures SenderOk(more[d], d, enqueued, limit + 1) {
      if d != c { assert SenderOk(readers[d], d, enqueued, limit + 1); }
    }
  }

  lemma OfferOther(readers: map<nat, Reader>, enqueued: seq<Item>, item: Item, requests: seq<Arrival>, limit: nat)
    requires NumberInv(readers, enqueued, requests, limit) && !item.origin.FromRequest?
    ensures NumberInv(readers, enqueued + [item], requests, limit)
  {
    forall c | c in readers ensures SenderOk(readers[c], c, enqueued + [item], limit) {
      assert SenderOk(readers[c], c, enqueued, limit);
    }
  }

  lemma OfferRequest(
    readers: map<nat, Reader>, c: nat, next: Reader, enqueued: seq<Item>, requests: seq<Arrival>, limit: nat)
    requires NumberInv(readers, enqueued, requests, limit) && AllObjects(requests)
    requires c in readers && readers[c].Sending? && !next.Sending?
    requires Forwarding.ReaderShape(requests, c, readers[c])
    ensures var r := readers[c];
      NumberInv(readers[c := next], enqueued + [Item(FromRequest(r.req.ticket), SetId(r.req.body, Str(r.id)))],
                requests, limit)
  {
    var r := readers[c];
    var item := Item(FromRequest(r.req.ticket), SetId(r.req.body, Str(r.id)));
    assert SenderOk(r, c, enqueued, limit);
    SetIdReplacesOnlyId(r.req.body, Str(r.id));
    assert ItemId(item) == Some(Str(r.id));
    assert Renumbered(requests, item, limit);
    var more := readers[c := next];
    forall d | d in more ensures SenderOk(more[d], d, enqueued + [item], limit) {
      if d != c { assert SenderOk(readers[d], d, enqueued, limit); }
    }
  }

  lemma RequestArrives(readers: map<nat, Reader>, enqueued: seq<Item>, requests: seq<Arrival>, a: Arrival, limit: nat)
    requires NumberInv(readers, enqueued, requests, limit)
    ensures NumberInv(readers, enqueued, requests + [a], limit)
  {
    forall i | 0 <= i < |enqueued| && enqueued[i].origin.FromRequest?
      ensures Renumbered(requests + [a], enqueued[i], limit) {
      assert Renumbered(requests, enqueued[i], limit);
    }
  }

  // ----- runs

  ghost predicate Inv(s: System) {
    NumberInv(s.readers, s.queue.enqueued, s.book.requests, s.shared.nextGlobal)
  }

  predicate Files(a: ClientAction) {
    a.InitializeRequest? || a.ForwardNext?
  }

  /** Actions that neither queue a request nor hand out an id. */
  lemma ClientStepShape(s: System, c: nat, a: ClientAction)
    requires ClientEnabled(s, c, a) && !Files(a) && !a.Enqueue? && !a.Receive?
    ensures var n := ClientStep(s, c, a);
      && n.book.requests == s.book.requests && n.shared.nextGlobal == s.shared.nextGlobal
      && (n.readers == s.readers || (n.readers == s.readers[c := n.readers[c]] && !n.readers[c].Sending?))
      && (n.queue.enqueued == s.queue.enqueued || a.Announce? || a.ForwardNotice?)
  {
  }

  lemma NoticeShape(s: System, c: nat, a: ClientAction)
    requires ClientEnabled(s, c, a) && (a.Announce? || a.ForwardNotice?)
    ensures var n := ClientStep(s, c, a);
      n.queue.enqueued == s.queue.enqueued ||
      exists item: Item :: !item.origin.FromRequest? && n.queue.enqueued == s.queue.enqueued + [item]
  {
    var item := Item(if a.Announce? then FromHandshake(c) else FromNotice(c), s.readers[c].msg);
    assert HasRoom(s.queue) ==> ClientStep(s, c, a).queue.enqueued == s.queue.enqueued + [item];
  }

  lemma FilingShape(s: System, c: nat, a: ClientAction)
    requires ClientEnabled(s, c, a) && Files(a)
    ensures var n := ClientStep(s, c, a);
      && n.book.requests == s.book.requests && n.queue == s.queue
      && c in n.readers && n.readers == s.readers[c := n.readers[c]]
      && n.shared.nextGlobal == s.shared.nextGlobal + (if n.readers[c].Sending? then 1 else 0)
      && (n.readers[c].Sending? ==> n.readers[c].id == Ids.GlobalId(c, s.shared.nextGlobal))
  {
  }

  lemma ClientStepKeepsNumbers(s: System, c: nat, a: ClientAction)
    requires Inv(s) && AllObjects(s.book.requests) && ClientEnabled(s, c, a)
    requires Forwarding.ReaderShape(s.book.requests, c, s.readers[c])
    ensures Inv(ClientStep(s, c, a))
  {
    var n, enqueued, requests, limit := ClientStep(s, c, a), s.queue.enqueued, s.book.requests, s.shared.nextGlobal;
    if Files(a) {
      FilingShape(s, c, a);
      if n.readers[c].Sending? { ReaderSends(s.readers, c, n.readers[c], enqueued, requests, limit); }
      else { ReaderRests(s.readers, c, n.readers[c], enqueued, requests, limit); }
    } else if a.Enqueue? {
      OfferRequest(s.readers, c, Flushing(s.readers[c].rest), enqueued, requests, limit);
    } else if a.Receive? {
      ReaderRests(s.readers, c, n.readers[c], enqueued, requests, limit);
      if IsRequest(a.msg, a.tooLarge) {
        RequestArrives(n.readers, enqueued, requests, Arrival(c, a.msg, a.tooLarge), limit);
      }
    } else {
      ClientStepShape(s, c, a);
      if n.readers != s.readers { ReaderRests(s.readers, c, n.readers[c], enqueued, requests, limit); }
      if n.queue.enqueued != enqueued {
        NoticeShape(s, c, a);
        var item: Item :| !item.origin.FromRequest? && n.queue.enqueued == enqueued + [item];
        OfferOther(n.readers, enqueued, item, requests, limit);
      }
    }
  }

  lemma StepKeepsNumbers(s: System, l: Label)
    requires Inv(s) && Announcement.AnnouncementInv(s) && Forwarding.FlowInv(s) && Enabled(s, l)
    ensures Inv(Apply(s, l))
  {
    match l
    case ByClient(c, a) =>
      RequestsAreObjects(s.book.requests);
      assert Forwarding.Flow(s, c);
      ClientStepKeepsNumbers(s, c, a);
    case ByManager(a) => ManagerStepFrame(s, a);
    case ByRouter(a) => RouterStepFrame(s, a);
    case ByReaper(a) => ReaperStepFrame(s, a);
    case Connect =>
      ReaderRests(s.readers, s.shared.nextClient, Idle, s.queue.enqueued, s.book.requests, s.shared.nextGlobal);
    case Probe =>
      OfferOther(s.readers, s.queue.enqueued, Item(FromProbe, ProbeMessage(s.nextProbe)), s.book.requests,
                 s.shared.nextGlobal);
    case _ =>
  }

  lemma {:induction false} RunKeepsNumbers(s: System, labels: seq<Label>)
    requires Inv(s) && Announcement.AnnouncementInv(s) && Forwarding.FlowInv(s) && IsRun(s, labels)
    ensures Inv(Final(s, labels))
    decreases |labels|
  {
    hide Enabled, Apply, Inv;
    if labels != [] {
      StepKeepsNumbers(s, labels[0]);
      Announcement.StepKeepsAnnouncement(s, labels[0]);
      Forwarding.StepKeepsFlow(s, labels[0]);
      RunKeepsNumbers(Apply(s, labels[0]), labels[1..]);
    }
  }

  /** Every request that ever enters the queue is the message its client sent with nothing but
      the id replaced, and its new id, which names that client, is no other request's. */
  lemma RequestsAreForwardedFaithfully(s: System, labels: seq<Label>)
    requires Initial(s) && IsRun(s, labels)
    ensures var n := Final(s, labels);
      ItemsRenumbered(n.queue.enqueued, n.book.requests, n.shared.nextGlobal) && ItemsDiffer(n.queue.enqueued)
  {
    hide Enabled, Apply, IsRun, Final;
    RunKeepsNumbers(s, labels);
  }
}
