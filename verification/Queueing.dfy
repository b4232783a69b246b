/** What reaches the children, in which order, and how often they are started. */
module Queueing {
  import opened Wrappers
  import opened Json
  import opened Shared
  import opened Protocol
  import opened Frames

  function ItemsOf(attempts: seq<Attempt>): seq<Item> {
    seq(|attempts|, i requires 0 <= i < |attempts| => attempts[i].item)
  }

  /** What the manager has taken off the queue and not yet offered to a child. */
  function InHand(m: Manager): seq<Item> {
    match m
    case HoldingFirst(item) => [item]
    case Attached(Some(item)) => [item]
    case _ => []
  }

  ghost predicate Monotone(attempts: seq<Attempt>, generation: nat) {
    && (forall i, j :: 0 <= i < j < |attempts| ==> attempts[i].generation <= attempts[j].generation)
    && (forall i :: 0 <= i < |attempts| ==> 1 <= attempts[i].generation <= generation)
  }

  predicate HasChild(m: Manager) {
    m.Attached? || m.Detached? || m.Clearing?
  }

  ghost predicate QueueInv(s: System) {
    var k, q := s.child, s.queue;
    && (if k.manager.Stopped? then ItemsOf(k.attempts) <= q.enqueued && !q.open && q.items == []
        else q.enqueued == ItemsOf(k.attempts) + InHand(k.manager) + q.items && q.open)
    && |q.items| <= MAX_QUEUE
    && Monotone(k.attempts, k.generation)
    && (if k.manager.Stopped? then k.generation <= k.restarts + 1
        else k.generation == k.restarts + if HasChild(k.manager) then 1 else 0)
    && (s.config.maxRestarts > 0 ==> k.generation <= s.config.maxRestarts)
    && (k.manager.HoldingFirst? ==> s.config.lazyStart && k.attempts == [] && k.generation == 0)
    && (s.config.lazyStart && k.generation > 0 ==> q.enqueued != [])
    && (s.config.lazyStart && k.generation > 0 && k.attempts == [] ==> k.manager.Attached? && k.manager.hand.Some?)
    && (k.generation == 0 ==> k.attempts == [])
  }

  lemma OfferKeepsQueue(s: System, n: System, item: Item)
    requires QueueInv(s) && HasRoom(s.queue)
    requires n.config == s.config && n.child == s.child && n.queue == Offer(s.queue, item)
    ensures QueueInv(n)
  {
  }

  lemma ClientStepQueue(s: System, c: nat, a: ClientAction)
    requires ClientEnabled(s, c, a)
    ensures var n := ClientStep(s, c, a);
      && n.child == s.child && n.config == s.config
      && (n.queue == s.queue || (HasRoom(s.queue) && exists item :: n.queue == Offer(s.queue, item)))
  {
    if a.Announce? || a.ForwardNotice? {
      var origin := if a.Announce? then FromHandshake(c) else FromNotice(c);
      assert HasRoom(s.queue) ==> ClientStep(s, c, a).queue == Offer(s.queue, Item(origin, s.readers[c].msg));
    } else if a.Enqueue? {
      var r := s.readers[c];
      assert ClientStep(s, c, a).queue == Offer(s.queue, Item(FromRequest(r.req.ticket), SetId(r.req.body, Str(r.id))));
    }
  }

  lemma ManagerStepKeepsQueue(s: System, a: ManagerAction)
    requires QueueInv(s) && ManagerEnabled(s, a)
    ensures QueueInv(ManagerStep(s, a))
  {
    var k, n := s.child, ManagerStep(s, a).child;
    if a.WriteToChild? {
      assert ItemsOf(n.attempts) == ItemsOf(k.attempts) + InHand(k.manager);
    } else {
      assert n.attempts == k.attempts;
    }
  }

  lemma StepKeepsQueue(s: System, l: Label)
    requires QueueInv(s) && Enabled(s, l)
    ensures QueueInv(Apply(s, l))
  {
    var n := Apply(s, l);
    match l
    case ByClient(c, a) =>
      ClientStepQueue(s, c, a);
      if n.queue != s.queue {
        var item :| n.queue == Offer(s.queue, item);
        OfferKeepsQueue(s, n, item);
      }
    case ByManager(a) => ManagerStepKeepsQueue(s, a);
    case ByRouter(a) => RouterStepFrame(s, a);
    case ByReaper(a) => ReaperStepFrame(s, a);
    case Probe => OfferKeepsQueue(s, n, Item(FromProbe, ProbeMessage(s.nextProbe)));
    case _ =>
  }

  lemma {:induction false} RunKeepsQueue(s: System, labels: seq<Label>)
    requires QueueInv(s) && IsRun(s, labels)
    ensures QueueInv(Final(s, labels)) && Final(s, labels).config == s.config
    decreases |labels|
  {
    hide Enabled, Apply, QueueInv;
    if labels != [] {
      StepKeepsQueue(s, labels[0]);
      StepKeepsConfig(s, labels[0]);
      RunKeepsQueue(Apply(s, labels[0]), labels[1..]);
    }
  }

  lemma StepKeepsConfig(s: System, l: Label)
    requires Enabled(s, l)
    ensures Apply(s, l).config == s.config
  {
    match l
    case ByClient(c, a) => ClientStepQueue(s, c, a);
    case ByManager(a) => ManagerStepFrame(s, a);
    case ByRouter(a) => RouterStepFrame(s, a);
    case ByReaper(a) => ReaperStepFrame(s, a);
    case _ =>
  }

  /** The i-th write attempt, over all children together, is of the i-th queued message. */
  ghost predicate InQueueOrder(k: Child, enqueued: seq<Item>) {
    && |k.attempts| <= |enqueued|
    && (forall i :: 0 <= i < |k.attempts| ==> k.attempts[i].item == enqueued[i])
    && (forall i, j :: 0 <= i < j < |k.attempts| ==> k.attempts[i].generation <= k.attempts[j].generation)
  }

  /** No child before the first message; once there is one, that message is the first
      attempted, or still in the manager's hand. */
  ghost predicate StartsWithFirst(k: Child, enqueued: seq<Item>) {
    k.generation > 0 ==>
      && enqueued != []
      && (k.attempts == [] && !k.manager.Stopped? ==> InHand(k.manager) == [enqueued[0]])
  }

  lemma AttemptsInOrder(k: Child, q: Queue)
    requires Monotone(k.attempts, k.generation)
    requires ItemsOf(k.attempts) <= q.enqueued
    ensures InQueueOrder(k, q.enqueued)
  {
    forall i | 0 <= i < |k.attempts| ensures k.attempts[i].item == q.enqueued[i] {
      assert ItemsOf(k.attempts)[i] == q.enqueued[i];
    }
  }

  lemma PrefixOfEnqueued(a: seq<Item>, b: seq<Item>, c: seq<Item>)
    ensures a <= a + b + c
    ensures a == [] && |b| == 1 ==> b == [(a + b + c)[0]]
  {
  }

  /** Queue order survives restarts. In every run the messages offered to children, over all
      children together, are a prefix of those that entered the queue, in order, each once and
      on one child, later messages never on earlier children; what is left stays queued unless
      the manager has stopped. With lazy start no child exists before the first message, which
      is the first one attempted. */
  lemma QueueOrderSurvivesRestarts(s: System, labels: seq<Label>)
    requires Initial(s) && IsRun(s, labels)
    ensures var n := Final(s, labels);
      && InQueueOrder(n.child, n.queue.enqueued)
      && |n.queue.items| <= 1024
      && (n.child.manager.Stopped? ||
          n.queue.enqueued == ItemsOf(n.child.attempts) + InHand(n.child.manager) + n.queue.items)
      && (s.config.lazyStart ==> StartsWithFirst(n.child, n.queue.enqueued))
  {
    hide Enabled, Apply, IsRun, Final;
    RunKeepsQueue(s, labels);
    var n := Final(s, labels);
    PrefixOfEnqueued(ItemsOf(n.child.attempts), InHand(n.child.manager), n.queue.items);
    AttemptsInOrder(n.child, n.queue);
  }

  /** With a restart limit m > 0, no run ever starts more than m children. */
  lemma AtMostMaxRestartsChildren(s: System, labels: seq<Label>)
    requires Initial(s) && IsRun(s, labels) && s.config.maxRestarts > 0
    ensures Final(s, labels).child.generation <= s.config.maxRestarts
  {
    hide Enabled, Apply, IsRun, Final;
    RunKeepsQueue(s, labels);
  }
}
