/** What is ever put on the pending table in the course of a run: an id is one request's, for
    good, and what is sent to the child goes under the id the request was filed under. */
module Filing {
  import opened Wrappers
  import opened Json
  import opened Shared
  import opened Protocol
  import opened Effects
  import opened Frames
  import Ids
  import Announcement
  import Forwarding
  import Renumbering
  import Generations

  // ----- the history of a run

  /** What children emitted, and which request was ever on file under which id. */
  datatype Past = Past(emitted: set<(nat, Value)>, filed: set<(nat, string)>)

  function FiledNow(pending: map<string, Pending>): set<(nat, string)> {
    set g | g in pending :: (pending[g].ticket, g)
  }

  function EmittedBy(l: Label): set<(nat, Value)> {
    if l.Emit? then {(l.generation, l.msg)} else {}
  }

  function Next(past: Past, l: Label, n: System): Past {
    Past(past.emitted + EmittedBy(l), past.filed + FiledNow(n.shared.pending))
  }

  ghost function After(s: System, labels: seq<Label>, past: Past): Past
    requires IsRun(s, labels)
    decreases |labels|
  {
    if labels == [] then past
    else After(Apply(s, labels[0]), labels[1..], Next(past, labels[0], Apply(s, labels[0])))
  }

  /** At some point of the run the request is on the pending table under this id. */
  ghost predicate FiledIn(s: System, labels: seq<Label>, t: nat, id: string) {
    exists i :: 0 <= i <= |labels| && FiledAt(s, labels[..i], t, id)
  }

  ghost predicate FiledAt(s: System, labels: seq<Label>, t: nat, id: string) {
    IsRun(s, labels) && (t, id) in FiledNow(Final(s, labels).shared.pending)
  }

  lemma {:induction false} EmittedInRun(s: System, labels: seq<Label>, past: Past, g: nat, msg: Value)
    requires IsRun(s, labels) && (g, msg) in After(s, labels, past).emitted
    ensures (g, msg) in past.emitted || Emit(g, msg) in labels
    decreases |labels|
  {
    if labels != [] {
      var n := Apply(s, labels[0]);
      EmittedInRun(n, labels[1..], Next(past, labels[0], n), g, msg);
      assert labels == [labels[0]] + labels[1..];
    }
  }

  lemma FiledLater(s: System, labels: seq<Label>, t: nat, id: string)
    requires labels != [] && Enabled(s, labels[0]) && FiledIn(Apply(s, labels[0]), labels[1..], t, id)
    ensures FiledIn(s, labels, t, id)
  {
    var rest := labels[1..];
    var i :| 0 <= i <= |rest| && FiledAt(Apply(s, labels[0]), rest[..i], t, id);
    assert labels[..i + 1][1..] == rest[..i] && labels[..i + 1][0] == labels[0];
    assert FiledAt(s, labels[..i + 1], t, id);
  }

  lemma {:induction false} FiledInRun(s: System, labels: seq<Label>, past: Past, t: nat, id: string)
    requires IsRun(s, labels) && (t, id) in After(s, labels, past).filed
    ensures (t, id) in past.filed || FiledIn(s, labels, t, id)
    decreases |labels|
  {
    if labels != [] {
      var n := Apply(s, labels[0]);
      FiledInRun(n, labels[1..], Next(past, labels[0], n), t, id);
      if (t, id) in FiledNow(n.shared.pending) {
        assert labels[1..][..0] == [];
        assert FiledAt(n, labels[1..][..0], t, id);
      }
      if FiledIn(n, labels[1..], t, id) { FiledLater(s, labels, t, id); }
    }
  }

  // ----- an id belongs to one request

  ghost predicate OneRequestEach(filed: set<(nat, string)>) {
    forall p, q :: p in filed && q in filed && p.1 == q.1 ==> p == q
  }

  predicate ReaderFiled(r: Reader, filed: set<(nat, string)>) {
    r.Sending? ==> (r.req.ticket, r.id) in filed
  }

  predicate ItemFiled(item: Item, filed: set<(nat, string)>) {
    item.origin.FromRequest? ==>
      RoutingKey(item.body).Some? && (item.origin.ticket, RoutingKey(item.body).value) in filed
  }

  ghost predicate FilingInv(
    readers: map<nat, Reader>, enqueued: seq<Item>, pending: map<string, Pending>, limit: nat,
    filed: set<(nat, string)>)
  {
    && FiledNow(pending) <= filed
    && (forall p :: p in filed ==> Ids.IssuedBelow(p.1, limit))
    && OneRequestEach(filed)
    && (forall c :: c in readers ==> ReaderFiled(readers[c], filed))
    && (forall i :: 0 <= i < |enqueued| ==> ItemFiled(enqueued[i], filed))
  }

  lemma NewIdIsUnfiled(filed: set<(nat, string)>, c: nat, limit: nat)
    requires forall p :: p in filed ==> Ids.IssuedBelow(p.1, limit)
    ensures forall p :: p in filed ==> p.1 != Ids.GlobalId(c, limit)
    ensures forall p :: p in filed ==> Ids.IssuedBelow(p.1, limit + 1)
    ensures Ids.IssuedBelow(Ids.GlobalId(c, limit), limit + 1)
  {
    Ids.NextIdIsFresh(c, limit);
    forall p | p in filed ensures Ids.IssuedBelow(p.1, limit + 1) {
      Ids.IssuedMonotone(p.1, limit, limit + 1);
    }
  }

  lemma FiledOneMore(pending: map<string, Pending>, id: string, entry: Pending, filed: set<(nat, string)>)
    requires FiledNow(pending) <= filed
    ensures filed + FiledNow(pending[id := entry]) == filed + {(entry.ticket, id)}
  {
    var more := pending[id := entry];
    assert more[id] == entry && (entry.ticket, id) in FiledNow(more);
    forall p | p in FiledNow(more) ensures p in filed + {(entry.ticket, id)} {
      if p.1 != id { assert (pending[p.1].ticket, p.1) in FiledNow(pending); }
    }
  }

  lemma FilesUnderNewId(
    readers: map<nat, Reader>, c: nat, r: Reader, enqueued: seq<Item>, pending: map<string, Pending>, entry: Pending,
    limit: nat, filed: set<(nat, string)>)
    requires FilingInv(readers, enqueued, pending, limit, filed)
    requires r.Sending? && r.id == Ids.GlobalId(c, limit) && entry.ticket == r.req.ticket
    ensures var more := pending[r.id := entry];
      FilingInv(readers[c := r], enqueued, more, limit + 1, filed + FiledNow(more))
  {
    NewIdIsUnfiled(filed, c, limit);
    FiledOneMore(pending, r.id, entry, filed);
  }

  lemma FewerFiled(before: map<string, Pending>, after: map<string, Pending>, filed: set<(nat, string)>)
    requires Fewer(before, after) && FiledNow(before) <= filed
    ensures filed + FiledNow(after) == filed
  {
    forall p | p in FiledNow(after) ensures p in filed {
      assert (before[p.1].ticket, p.1) in FiledNow(before);
    }
  }

  /** What a reader puts on the queue is found under the id it was filed under. */
  lemma SentUnderItsId(r: Reader, limit: nat, filed: set<(nat, string)>)
    requires r.Sending? && ReaderFiled(r, filed) && r.req.body.Obj?
    requires forall p :: p in filed ==> Ids.IssuedBelow(p.1, limit)
    ensures ItemFiled(Item(FromRequest(r.req.ticket), SetId(r.req.body, Str(r.id))), filed)
  {
    assert Ids.IssuedBelow((r.req.ticket, r.id).1, limit);
    var c: nat, n: nat :| r.id == Ids.GlobalId(c, n);
    Ids.IdSpacesDisjoint(c, n, 0, 0);
  }

  ghost predicate Filings(s: System, past: Past) {
    FilingInv(s.readers, s.queue.enqueued, s.shared.pending, s.shared.nextGlobal, past.filed)
  }

  /** How the two filing regions end. */
  lemma FilingTable(s: System, c: nat, a: ClientAction)
    requires ClientEnabled(s, c, a) && Renumbering.Files(a)
    ensures var n := ClientStep(s, c, a);
      && c in n.readers
      && if n.readers[c].Sending? then
           var r := n.readers[c];
           Held(s.readers[c]) != [] && r.req == Held(s.readers[c])[0] && r.id == Ids.GlobalId(c, s.shared.nextGlobal) &&
           n.shared.pending ==
             s.shared.pending[r.id := Pending(c, LocalId(r.req.body), a.InitializeRequest?, s.now, r.req.ticket)]
         else n.shared.pending == s.shared.pending
  {
    hide ErrorResponse, SetId, LocalId, Sent, Ids.GlobalId;
  }

  lemma OthersOnlyRemove(s: System, c: nat, a: ClientAction)
    requires ClientEnabled(s, c, a) && !Renumbering.Files(a)
    ensures Fewer(s.shared.pending, ClientStep(s, c, a).shared.pending)
  {
    hide ClientStep, ClientEnabled, Changed;
    ClientStepShared(s, c, a);
    ChangedPending(s.shared, c, s.now, ChangeBy(s.readers[c], a));
  }

  lemma ClientStepKeepsFilings(s: System, c: nat, a: ClientAction, past: Past)
    requires Filings(s, past) && Renumbering.AllObjects(s.book.requests) && ClientEnabled(s, c, a)
    requires Forwarding.ReaderShape(s.book.requests, c, s.readers[c])
    ensures var n := ClientStep(s, c, a); Filings(n, Next(past, ByClient(c, a), n))
  {
    hide ClientStep;
    var n := ClientStep(s, c, a);
    if Renumbering.Files(a) {
      Renumbering.FilingShape(s, c, a);
      FilingTable(s, c, a);
      if n.readers[c].Sending? {
        var entry := n.shared.pending[n.readers[c].id];
        FilesUnderNewId(s.readers, c, n.readers[c], s.queue.enqueued, s.shared.pending, entry, s.shared.nextGlobal,
                        past.filed);
      }
    } else {
      OthersOnlyRemove(s, c, a);
      FewerFiled(s.shared.pending, n.shared.pending, past.filed);
      ClientStepKeepsNumber(s, c, a);
      ClientStepReader(s, c, a);
      Generations.ClientStepOffers(s, c, a);
      ClientStepEnqueues(s, c, a);
      if a.Enqueue? { SentUnderItsId(s.readers[c], s.shared.nextGlobal, past.filed); }
    }
  }

  lemma ClientStepKeepsNumber(s: System, c: nat, a: ClientAction)
    requires ClientEnabled(s, c, a) && !Renumbering.Files(a)
    ensures ClientStep(s, c, a).shared.nextGlobal == s.shared.nextGlobal
  {
    hide ClientStep, ClientEnabled, Initialize, ErrorResponse, SetId, LocalId, Sent;
    ClientStepShared(s, c, a);
  }

  /** What a step of a client adds to the queue, if anything. */
  lemma ClientStepEnqueues(s: System, c: nat, a: ClientAction)
    requires ClientEnabled(s, c, a)
    ensures var r, enqueued := s.readers[c], ClientStep(s, c, a).queue.enqueued;
      || enqueued == s.queue.enqueued
      || (a.Enqueue? && r.Sending? &&
          enqueued == s.queue.enqueued + [Item(FromRequest(r.req.ticket), SetId(r.req.body, Str(r.id)))])
      || (r.Noted? && !r.tooLarge && enqueued == s.queue.enqueued + [Item(FromNotice(c), r.msg)])
      || (r.Announcing? && enqueued == s.queue.enqueued + [Item(FromHandshake(c), r.msg)])
  {
  }

  lemma StepKeepsFilings(s: System, l: Label, past: Past)
    requires Filings(s, past) && Renumbering.AllObjects(s.book.requests) && Forwarding.FlowInv(s) && Enabled(s, l)
    ensures var n := Apply(s, l); Filings(n, Next(past, l, n))
  {
    var n := Apply(s, l);
    match l
    case ByClient(c, a) =>
      assert Forwarding.Flow(s, c);
      ClientStepKeepsFilings(s, c, a, past);
    case ByManager(a) =>
      ManagerStepFrame(s, a);
      FewerFiled(s.shared.pending, n.shared.pending, past.filed);
    case ByRouter(a) =>
      RouterStepFrame(s, a);
      FewerFiled(s.shared.pending, n.shared.pending, past.filed);
    case ByReaper(a) =>
      ReaperStepFrame(s, a);
      FewerFiled(s.shared.pending, n.shared.pending, past.filed);
    case _ => FewerFiled(s.shared.pending, n.shared.pending, past.filed);
  }

  // ----- messages that carry no id of a request

  /** The message would be looked up under an id of the form the daemon hands out. */
  ghost predicate UsesGlobalId(msg: Value) {
    exists c: nat, n: nat :: RoutingKey(msg) == Some(Ids.GlobalId(c, n))
  }

  ghost predicate ReaderPlain(r: Reader) {
    (r.Noted? && !r.tooLarge) || r.Announcing? ==> !UsesGlobalId(r.msg)
  }

  ghost predicate ItemPlain(item: Item) {
    item.origin.FromRequest? || !UsesGlobalId(item.body)
  }

  /** Only requests go to the child under such an id. */
  ghost predicate PlainInv(readers: map<nat, Reader>, enqueued: seq<Item>) {
    && (forall c :: c in readers ==> ReaderPlain(readers[c]))
    && (forall i :: 0 <= i < |enqueued| ==> ItemPlain(enqueued[i]))
  }

  lemma ClientStepKeepsPlain(s: System, c: nat, a: ClientAction)
    requires PlainInv(s.readers, s.queue.enqueued) && s.config.plainHandshakes && ClientEnabled(s, c, a)
    ensures var n := ClientStep(s, c, a); PlainInv(n.readers, n.queue.enqueued)
  {
    hide ClientStep;
    ClientStepReader(s, c, a);
    ClientStepEnqueues(s, c, a);
    assert ReaderPlain(s.readers[c]);
    if a.Receive? && !IsRequest(a.msg, a.tooLarge) { assert ReaderPlain(Noted(a.msg, a.tooLarge)); }
  }

  lemma StepKeepsPlain(s: System, l: Label)
    requires PlainInv(s.readers, s.queue.enqueued) && s.config.plainHandshakes && Enabled(s, l)
    ensures var n := Apply(s, l); PlainInv(n.readers, n.queue.enqueued)
  {
    match l
    case ByClient(c, a) => ClientStepKeepsPlain(s, c, a);
    case ByManager(a) => ManagerStepFrame(s, a);
    case ByRouter(a) => RouterStepFrame(s, a);
    case ByReaper(a) => ReaperStepFrame(s, a);
    case Probe => Ids.IdSpacesDisjoint(0, 0, s.nextProbe, 0);
    case _ =>
  }

  // ----- every run

  /** What the two properties of this file rest on. */
  ghost predicate Base(s: System) {
    Announcement.AnnouncementInv(s) && Forwarding.FlowInv(s)
  }

  lemma StepKeepsBase(s: System, l: Label)
    requires Base(s) && Enabled(s, l)
    ensures Base(Apply(s, l))
  {
    hide Enabled, Apply;
    Announcement.StepKeepsAnnouncement(s, l);
    Forwarding.StepKeepsFlow(s, l);
  }

  lemma {:induction false} RunKeepsFilings(s: System, labels: seq<Label>, past: Past)
    requires Base(s) && Filings(s, past) && IsRun(s, labels)
    ensures Filings(Final(s, labels), After(s, labels, past))
    decreases |labels|
  {
    hide Enabled, Apply, Filings;
    if labels != [] {
      Renumbering.RequestsAreObjects(s.book.requests);
      StepKeepsFilings(s, labels[0], past);
      StepKeepsBase(s, labels[0]);
      RunKeepsFilings(Apply(s, labels[0]), labels[1..], Next(past, labels[0], Apply(s, labels[0])));
    }
  }

  const NOTHING := Past({}, {})

  /** The history of a run misses nothing. */
  lemma {:induction false} FiledIsRemembered(s: System, labels: seq<Label>, past: Past, i: nat, t: nat, id: string)
    requires IsRun(s, labels) && FiledNow(s.shared.pending) <= past.filed
    requires i <= |labels| && FiledAt(s, labels[..i], t, id)
    ensures (t, id) in After(s, labels, past).filed
    decreases |labels|
  {
    hide Enabled, Apply;
    if i == 0 {
      PastGrows(s, labels, past);
    } else {
      var n := Apply(s, labels[0]);
      assert labels[..i][1..] == labels[1..][..i - 1];
      FiledIsRemembered(n, labels[1..], Next(past, labels[0], n), i - 1, t, id);
    }
  }

  lemma {:induction false} PastGrows(s: System, labels: seq<Label>, past: Past)
    requires IsRun(s, labels)
    ensures past.filed <= After(s, labels, past).filed && past.emitted <= After(s, labels, past).emitted
    decreases |labels|
  {
    hide Enabled, Apply;
    if labels != [] {
      PastGrows(Apply(s, labels[0]), labels[1..], Next(past, labels[0], Apply(s, labels[0])));
    }
  }

  lemma NothingYet(s: System)
    requires Initial(s)
    ensures Base(s) && Filings(s, NOTHING) && FiledNow(s.shared.pending) == {}
  {
  }

  /** In the course of a whole run no two requests are ever on file under the same id, however
      often the table was emptied in between. */
  lemma IdsAreNeverReused(s: System, labels: seq<Label>, t: nat, u: nat, id: string)
    requires Initial(s) && IsRun(s, labels)
    requires FiledIn(s, labels, t, id) && FiledIn(s, labels, u, id)
    ensures t == u
  {
    hide Enabled, Apply, IsRun, Final, Initial, Base, Ids.IssuedBelow, FiledAt;
    NothingYet(s);
    RunKeepsFilings(s, labels, NOTHING);
    var i :| 0 <= i <= |labels| && FiledAt(s, labels[..i], t, id);
    var j :| 0 <= j <= |labels| && FiledAt(s, labels[..j], u, id);
    FiledIsRemembered(s, labels, NOTHING, i, t, id);
    FiledIsRemembered(s, labels, NOTHING, j, u, id);
    assert ((t, id)).1 == ((u, id)).1;
  }
}
