/** How many requests can be outstanding, and for how long. */
module Timing {
  import opened Wrappers
  import opened Shared
  import opened Protocol
  import opened Effects
  import opened Frames
  import Ids

  /** Every entry was filed in the past and had not expired at the last reaper tick. */
  ghost predicate Recent(pending: map<string, Pending>, now: nat, lastReap: nat, timeout: nat) {
    && lastReap <= now
    && forall g :: g in pending ==> pending[g].startedAt <= now && lastReap <= pending[g].startedAt + timeout
  }

  ghost predicate OnTime(now: nat, lastReap: nat, gap: Option<nat>) {
    gap.Some? ==> now <= lastReap + gap.value
  }

  ghost predicate TimingInv(s: System) {
    && |s.shared.pending| <= MAX_PENDING
    && Recent(s.shared.pending, s.now, s.reaping.lastReap, s.config.requestTimeout)
    && OnTime(s.now, s.reaping.lastReap, s.config.reaperGap)
  }

  lemma FewerStaysRecent(
    before: map<string, Pending>, after: map<string, Pending>, now: nat, lastReap: nat, timeout: nat)
    requires Recent(before, now, lastReap, timeout) && Fewer(before, after)
    ensures Recent(after, now, lastReap, timeout)
  {
  }

  lemma FilingStaysRecent(before: map<string, Pending>, after: map<string, Pending>, c: nat, id: string, now: nat,
                          lastReap: nat, timeout: nat)
    requires Recent(before, now, lastReap, timeout) && OnlyFiles(before, after, c, id, now)
    ensures Recent(after, now, lastReap, timeout)
  {
  }

  lemma ClientStepClock(s: System, c: nat, a: ClientAction)
    requires ClientEnabled(s, c, a)
    ensures var n := ClientStep(s, c, a); n.now == s.now && n.config == s.config && n.reaping == s.reaping
  {
    hide ClientStep, ClientEnabled;
    ClientStepElsewhere(s, c, a);
  }

  lemma ClientStepKeepsTiming(s: System, c: nat, a: ClientAction)
    requires TimingInv(s) && ClientEnabled(s, c, a)
    ensures TimingInv(ClientStep(s, c, a))
  {
    ClientStepPending(s, c, a);
    ClientStepClock(s, c, a);
    FilingStaysRecent(s.shared.pending, ClientStep(s, c, a).shared.pending, c, Ids.GlobalId(c, s.shared.nextGlobal),
                      s.now, s.reaping.lastReap, s.config.requestTimeout);
  }

  lemma ReaperStepKeepsTiming(s: System, a: ReaperAction)
    requires TimingInv(s) && ReaperEnabled(s, a)
    ensures TimingInv(ReaperStep(s, a))
  {
    ReaperStepFrame(s, a);
    FewerIsSmaller(s.shared.pending, ReaperStep(s, a).shared.pending);
  }

  lemma StepKeepsTiming(s: System, l: Label)
    requires TimingInv(s) && Enabled(s, l)
    ensures TimingInv(Apply(s, l)) && Apply(s, l).config == s.config
  {
    match l
    case ByClient(c, a) => ClientStepKeepsTiming(s, c, a); ClientStepClock(s, c, a);
    case ByManager(a) => ManagerStepFrame(s, a);
    case ByRouter(a) =>
      RouterStepFrame(s, a);
      FewerIsSmaller(s.shared.pending, RouterStep(s, a).shared.pending);
      FewerStaysRecent(s.shared.pending, RouterStep(s, a).shared.pending, s.now, s.reaping.lastReap,
                       s.config.requestTimeout);
    case ByReaper(a) => ReaperStepKeepsTiming(s, a); ReaperStepFrame(s, a);
    case _ =>
  }

  lemma {:induction false} RunKeepsTiming(s: System, labels: seq<Label>)
    requires TimingInv(s) && IsRun(s, labels)
    ensures TimingInv(Final(s, labels)) && Final(s, labels).config == s.config
    decreases |labels|
  {
    hide Enabled, Apply, TimingInv;
    if labels != [] {
      StepKeepsTiming(s, labels[0]);
      RunKeepsTiming(Apply(s, labels[0]), labels[1..]);
    }
  }

  /** In every reachable state at most MAX_PENDING requests are outstanding, and when reaper
      ticks are at most `gap` apart none of them is older than the timeout plus the gap. */
  lemma BoundedWaitingAndMemory(s: System, labels: seq<Label>, gap: nat)
    requires Initial(s) && IsRun(s, labels)
    ensures var n := Final(s, labels);
      && |n.shared.pending| <= 2048
      && (s.config.reaperGap == Some(gap) ==>
            forall g :: g in n.shared.pending ==>
              n.now - n.shared.pending[g].startedAt <= s.config.requestTimeout + gap)
  {
    hide Enabled, Apply, IsRun, Final;
    RunKeepsTiming(s, labels);
  }

  lemma {:induction false} EnumerationSize(order: seq<string>, keys: set<string>)
    requires Enumerates(order, keys)
    ensures |order| == |keys|
  {
    if order == [] {
      assert forall k :: k !in keys;
    } else {
      var k := order[0];
      assert k in keys;
      assert forall x :: x in keys - {k} ==> x in order[1..];
      EnumerationSize(order[1..], keys - {k});
    }
  }

  lemma KeptAndExpired(st: State, now: nat, timeout: nat)
    ensures |Expire(st, now, timeout).pending| + |ExpiredKeys(st, now, timeout)| == |st.pending|
  {
    var expired, kept := ExpiredKeys(st, now, timeout), Expire(st, now, timeout).pending;
    assert kept.Keys + expired == st.pending.Keys;
    assert |kept.Keys| + |expired| == |kept.Keys + expired|;
  }

  /** A reaper tick takes out exactly the entries older than the timeout, and will report each
      of them once. */
  lemma ReapIsExact(s: System, order: seq<string>)
    requires ReaperEnabled(s, Reap(order))
    ensures var n := ReaperStep(s, Reap(order)); var before, after := s.shared.pending, n.shared.pending;
      && (forall g :: g in after <==> g in before && s.now - before[g].startedAt <= s.config.requestTimeout)
      && (forall g :: g in after ==> after[g] == before[g])
      && |n.reaping.hand| == |before| - |after| && n.reaping.lastReap == s.now
      && (forall g :: g in before && g !in after ==> OwedFor(before[g]) in n.reaping.hand)
  {
    var n := ReaperStep(s, Reap(order));
    EnumerationSize(order, ExpiredKeys(s.shared, s.now, s.config.requestTimeout));
    KeptAndExpired(s.shared, s.now, s.config.requestTimeout);
    forall g | g in s.shared.pending && g !in n.shared.pending ensures OwedFor(s.shared.pending[g]) in n.reaping.hand {
      assert g in order;
      var i :| 0 <= i < |order| && order[i] == g;
      assert n.reaping.hand[i] == OwedFor(s.shared.pending[g]);
    }
  }
}
