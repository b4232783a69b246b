/** Whether the child answers its heartbeat probes. */
module Heartbeat {
  import opened Wrappers
  import opened Numbers
  import Ids

  const RESPONSE_TIME_SAMPLES: nat := 10

  /** One probe: answered after so many milliseconds, or not. */
  datatype Outcome = Success(ms: nat) | Failure

  function Samples(history: seq<Outcome>): seq<nat> {
    if history == [] then []
    else
      var last := history[|history| - 1];
      Samples(history[..|history| - 1]) + if last.Success? then [last.ms] else []
  }

  function Failed(history: seq<Outcome>): nat {
    if history == [] then 0
    else Failed(history[..|history| - 1]) + if history[|history| - 1].Failure? then 1 else 0
  }

  /** The latest samples, ten at most. */
  function Latest(samples: seq<nat>): seq<nat> {
    if |samples| > RESPONSE_TIME_SAMPLES then samples[|samples| - RESPONSE_TIME_SAMPLES..] else samples
  }

  function Window(history: seq<Outcome>): seq<nat> {
    Latest(Samples(history))
  }

  /** The window is what is left of the samples when only the last ten are kept. */
  lemma WindowHoldsTheLastTen(history: seq<Outcome>)
    ensures |Window(history)| == if |Samples(history)| < 10 then |Samples(history)| else 10
    ensures Samples(history) == Samples(history)[..|Samples(history)| - |Window(history)|] + Window(history)
  {
  }

  function TrailingFailures(history: seq<Outcome>): nat {
    if history == [] || history[|history| - 1].Success? then 0
    else 1 + TrailingFailures(history[..|history| - 1])
  }

  /** The last `n` probes all failed. */
  ghost predicate EndsInFailures(history: seq<Outcome>, n: nat) {
    n <= |history| && forall i :: |history| - n <= i < |history| ==> history[i].Failure?
  }

  ghost predicate Between(low: nat, xs: seq<nat>, high: nat) {
    forall i :: 0 <= i < |xs| ==> low <= xs[i] <= high
  }

  lemma {:induction false} SumBetween(low: nat, xs: seq<nat>, high: nat)
    requires Between(low, xs, high)
    ensures Times(|xs|, low) <= Sum(xs) <= Times(|xs|, high)
  {
    if xs != [] { SumBetween(low, xs[..|xs| - 1], high); }
  }

  lemma Unscaled(a: nat, b: nat, n: nat)
    ensures a * n < b * n ==> a < b
  {
    if b <= a { Scaled(b, a, n); }
  }

  lemma DividedBetween(low: nat, total: nat, n: nat, high: nat)
    requires n > 0 && low * n <= total <= high * n
    ensures low <= total / n <= high
  {
    var q := total / n;
    assert q * n <= total < (q + 1) * n;
    Unscaled(low, q + 1, n);
    assert (high + 1) * n == high * n + n;
    Unscaled(q, high + 1, n);
  }

  function Mean(xs: seq<nat>): Option<nat> {
    if xs == [] then None else Some(Sum(xs) / |xs|)
  }

  /** The reported average lies between any bounds on the samples it was taken over. */
  lemma AverageBetween(history: seq<Outcome>, low: nat, high: nat)
    requires Window(history) != [] && Between(low, Window(history), high)
    ensures Mean(Window(history)).Some? && low <= Mean(Window(history)).value <= high
  {
    SumBetween(low, Window(history), high);
    TimesIsProduct(|Window(history)|, low);
    TimesIsProduct(|Window(history)|, high);
    DividedBetween(low, Sum(Window(history)), |Window(history)|, high);
  }

  /** It is their mean, rounded down: taken as often as there are samples it makes up their sum,
      and one more each would exceed it. */
  lemma AverageIsTheMean(history: seq<Outcome>)
    requires Window(history) != []
    ensures var n := |Window(history)|;
      && Mean(Window(history)).Some?
      && var mean := Mean(Window(history)).value; mean * n <= Sum(Window(history)) < (mean + 1) * n
  {
  }

  /** Every probe is counted once, as a success or as a failure. */
  lemma {:induction false} EveryOutcomeCounted(history: seq<Outcome>)
    ensures |Samples(history)| + Failed(history) == |history|
  {
    if history != [] { EveryOutcomeCounted(history[..|history| - 1]); }
  }

  /** The counter of consecutive failures reaches `n` exactly when the last `n` probes failed. */
  lemma {:induction false} RestartIffTrailingFailures(history: seq<Outcome>, n: nat)
    ensures TrailingFailures(history) >= n <==> EndsInFailures(history, n)
  {
    if history != [] && n > 0 {
      var init := history[..|history| - 1];
      RestartIffTrailingFailures(init, n - 1);
      if EndsInFailures(history, n) {
        assert history[|history| - 1].Failure?;
        assert EndsInFailures(init, n - 1);
      } else if EndsInFailures(init, n - 1) && history[|history| - 1].Failure? {
        assert forall i :: |history| - n <= i < |init| ==> init[i] == history[i];
      }
    }
  }

  /** What is kept of a history: the window, its mean, and the three counters. */
  datatype Summary = Summary(window: seq<nat>, mean: Option<nat>, successes: nat, failures: nat, trailing: nat)

  function Summarise(history: seq<Outcome>): Summary {
    Summary(Window(history), Mean(Window(history)), |Samples(history)|, Failed(history), TrailingFailures(history))
  }

  function Slide(window: seq<nat>, ms: nat): (r: seq<nat>)
    ensures r != []
  {
    (if |window| >= RESPONSE_TIME_SAMPLES then window[1..] else window) + [ms]
  }

  lemma NextSamples(history: seq<Outcome>, o: Outcome)
    ensures var more := history + [o];
      && Samples(more) == Samples(history) + (if o.Success? then [o.ms] else [])
      && Failed(more) == Failed(history) + (if o.Failure? then 1 else 0)
      && TrailingFailures(more) == (if o.Failure? then 1 + TrailingFailures(history) else 0)
  {
    assert (history + [o])[..|history|] == history;
  }

  lemma NextSuccess(history: seq<Outcome>, ms: nat)
    ensures var s, window := Summarise(history), Slide(Window(history), ms);
      Summarise(history + [Success(ms)]) == Summary(window, Mean(window), s.successes + 1, s.failures, 0)
  {
    NextSamples(history, Success(ms));
    LatestSlides(Samples(history), ms);
    assert Window(history + [Success(ms)]) == Slide(Window(history), ms);
  }

  lemma LatestSlides(samples: seq<nat>, ms: nat)
    ensures Latest(samples + [ms]) == Slide(Latest(samples), ms)
  {
  }

  lemma NextFailure(history: seq<Outcome>)
    ensures var s := Summarise(history);
      Summarise(history + [Failure]) == s.(failures := s.failures + 1, trailing := s.trailing + 1)
  {
    NextSamples(history, Failure);
  }

  class HeartbeatState {
    var responseTimes: seq<nat>
    var lastHeartbeat: Option<nat>
    var average: Option<nat>
    var totalSuccess: nat
    var totalFailures: nat
    var consecutiveFailures: nat
    var nextHeartbeatId: nat
    const maxFailures: nat
    ghost var history: seq<Outcome>

    /** The metrics are those of the history of probes. */
    ghost predicate Valid()
      reads this
    {
      Summary(responseTimes, average, totalSuccess, totalFailures, consecutiveFailures) == Summarise(history)
    }

    constructor (maxFailures: nat)
      ensures Valid() && history == [] && nextHeartbeatId == 1 && this.maxFailures == maxFailures
    {
      responseTimes, lastHeartbeat, average := [], None, None;
      totalSuccess, totalFailures, consecutiveFailures, nextHeartbeatId := 0, 0, 0, 1;
      this.maxFailures := maxFailures;
      history := [];
    }

    method NextId() returns (id: string)
      modifies this`nextHeartbeatId
      ensures id == Ids.HeartbeatId(old(nextHeartbeatId)) && nextHeartbeatId == old(nextHeartbeatId) + 1
    {
      id := Ids.HeartbeatId(nextHeartbeatId);
      nextHeartbeatId := nextHeartbeatId + 1;
    }

    method AddSample(ms: nat)
      modifies this`responseTimes
      ensures responseTimes == Slide(old(responseTimes), ms)
    {
      if |responseTimes| >= RESPONSE_TIME_SAMPLES { responseTimes := responseTimes[1..]; }
      responseTimes := responseTimes + [ms];
    }

    method Average() returns (mean: Option<nat>)
      requires responseTimes != []
      ensures mean == Mean(responseTimes)
    {
      var total, i := 0, 0;
      while i < |responseTimes|
        invariant 0 <= i <= |responseTimes|
        invariant total == Sum(responseTimes[..i])
      {
        assert responseTimes[..i + 1][..i] == responseTimes[..i];
        total := total + responseTimes[i];
        i := i + 1;
      }
      assert responseTimes[..i] == responseTimes;
      return Some(total / |responseTimes|);
    }

    method RecordSuccess(ms: nat, now: nat)
      requires Valid()
      modifies this
      ensures Valid() && history == old(history) + [Success(ms)]
      ensures lastHeartbeat == Some(now) && nextHeartbeatId == old(nextHeartbeatId)
    {
      NextSuccess(history, ms);
      AddSample(ms);
      var mean := Average();
      history := history + [Success(ms)];
      lastHeartbeat := Some(now);
      average := mean;
      consecutiveFailures := 0;
      totalSuccess := totalSuccess + 1;
    }

    method RecordFailure()
      requires Valid()
      modifies this
      ensures Valid() && history == old(history) + [Failure]
      ensures lastHeartbeat == old(lastHeartbeat) && nextHeartbeatId == old(nextHeartbeatId)
    {
      NextFailure(history);
      history := history + [Failure];
      consecutiveFailures := consecutiveFailures + 1;
      totalFailures := totalFailures + 1;
    }

    /** A restart is signalled exactly when the last `maxFailures` probes all failed. */
    method ShouldRestart() returns (restart: bool)
      requires Valid()
      ensures restart <==> EndsInFailures(history, maxFailures)
    {
      RestartIffTrailingFailures(history, maxFailures);
      return consecutiveFailures >= maxFailures;
    }
  }
}
