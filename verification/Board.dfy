/** The order in which the operator's board lists runs. */
module Board {
  import opened Wrappers
  import Text

  datatype RunKind = Active | Recent | Completed | Failed | Stalled | Paused | Unknown

  /** A run with its timestamps as instants, absent when there is none or it cannot be read.
      `agent` stands for all that is shown and not compared. */
  datatype Run = Run(
    id: string, kind: RunKind, updatedAt: Option<int>, startedAt: Option<int>, lastHeartbeat: Option<int>,
    agent: Option<string>)

  datatype Ordering = Less | Equal | Greater

  function SortRank(kind: RunKind): nat {
    match kind
    case Active => 0
    case Stalled => 1
    case Failed => 2
    case Paused => 3
    case Recent => 4
    case Completed => 5
    case Unknown => 6
  }

  function CompareInts(a: int, b: int): Ordering {
    if a < b then Less else if a == b then Equal else Greater
  }

  function CompareIds(a: string, b: string): Ordering {
    if a == b then Equal else if Text.Before(a, b) then Less else Greater
  }

  /** `compare_timestamp`: later first, missing last. */
  function CompareTimestamp(left: Option<int>, right: Option<int>): Ordering {
    match (left, right)
    case (Some(l), Some(r)) => CompareInts(r, l)
    case (Some(_), None) => Less
    case (None, Some(_)) => Greater
    case (None, None) => Equal
  }

  function Then(first: Ordering, second: Ordering): Ordering {
    if first == Equal then second else first
  }

  /** `compare_runs`: the timestamps are handed over the wrong way round, which turns the order
      of `compare_timestamp` into its opposite. */
  function CompareRuns(left: Run, right: Run): Ordering {
    Then(CompareInts(SortRank(left.kind), SortRank(right.kind)),
    Then(CompareTimestamp(right.updatedAt, left.updatedAt),
    Then(CompareTimestamp(right.startedAt, left.startedAt),
    Then(CompareTimestamp(right.lastHeartbeat, left.lastHeartbeat),
         CompareIds(left.id, right.id)))))
  }

  predicate Precedes(a: Run, b: Run) {
    CompareRuns(a, b) != Greater
  }

  // ----- a total order

  function Opposite(o: Ordering): Ordering {
    match o
    case Less => Greater
    case Equal => Equal
    case Greater => Less
  }

  lemma CompareAntisymmetric(a: Run, b: Run)
    ensures CompareRuns(b, a) == Opposite(CompareRuns(a, b))
  {
    Text.BeforeTrichotomy(a.id, b.id);
  }

  /** Missing before every instant, earlier before later. */
  predicate Earlier(a: Option<int>, b: Option<int>) {
    b.Some? && (a.None? || a.value < b.value)
  }

  predicate Strictly(a: Run, b: Run) {
    || SortRank(a.kind) < SortRank(b.kind)
    || (SortRank(a.kind) == SortRank(b.kind) &&
        (Earlier(a.updatedAt, b.updatedAt) ||
         (a.updatedAt == b.updatedAt &&
          (Earlier(a.startedAt, b.startedAt) ||
           (a.startedAt == b.startedAt &&
            (Earlier(a.lastHeartbeat, b.lastHeartbeat) ||
             (a.lastHeartbeat == b.lastHeartbeat && Text.Before(a.id, b.id))))))))
  }

  /** What the comparison amounts to. */
  lemma LessIsStrictly(a: Run, b: Run)
    ensures CompareRuns(a, b) == Less <==> Strictly(a, b)
  {
    Text.BeforeTrichotomy(a.id, b.id);
  }

  lemma StrictlyTransitive(a: Run, b: Run, c: Run)
    requires Strictly(a, b) && Strictly(b, c)
    ensures Strictly(a, c)
  {
    if Text.Before(a.id, b.id) && Text.Before(b.id, c.id) { Text.BeforeTransitive(a.id, b.id, c.id); }
  }

  lemma SameKeys(a: Run, b: Run)
    requires CompareRuns(a, b) == Equal
    ensures a.kind == b.kind && b == a.(agent := b.agent)
  {
  }

  lemma EqualEnough(a: Run, b: Run, c: Run)
    requires CompareRuns(a, b) == Equal
    ensures CompareRuns(a, c) == CompareRuns(b, c)
  {
    SameKeys(a, b);
  }

  /** `compare_runs` is a total order on runs with different ids. */
  lemma CompareRunsIsTotalOrder(a: Run, b: Run, c: Run)
    ensures Precedes(a, b) || Precedes(b, a)
    ensures Precedes(a, b) && Precedes(b, a) ==> a.id == b.id
    ensures Precedes(a, b) && Precedes(b, c) ==> Precedes(a, c)
  {
    CompareAntisymmetric(a, b);
    CompareAntisymmetric(b, c);
    CompareAntisymmetric(a, c);
    if CompareRuns(a, b) == Equal { EqualEnough(a, b, c); SameKeys(a, b); }
    else if CompareRuns(b, c) == Equal { SameKeys(b, c); }
    else if CompareRuns(a, b) == Less && CompareRuns(b, c) == Less {
      LessIsStrictly(a, b);
      LessIsStrictly(b, c);
      StrictlyTransitive(a, b, c);
      LessIsStrictly(a, c);
    }
  }

  // ----- the board

  ghost predicate Sorted(runs: seq<Run>) {
    forall i, j :: 0 <= i < j < |runs| ==> Precedes(runs[i], runs[j])
  }

  /** Where a run goes among sorted runs: behind everything it does not precede. */
  function Insert(runs: seq<Run>, r: Run): seq<Run> {
    if runs == [] then [r]
    else if Precedes(runs[|runs| - 1], r) then runs + [r]
    else Insert(runs[..|runs| - 1], r) + [runs[|runs| - 1]]
  }

  function Board(runs: seq<Run>): seq<Run> {
    if runs == [] then [] else Insert(Board(runs[..|runs| - 1]), runs[|runs| - 1])
  }

  ghost predicate AllPrecede(runs: seq<Run>, r: Run) {
    forall i :: 0 <= i < |runs| ==> Precedes(runs[i], r)
  }

  lemma SortedSnoc(runs: seq<Run>, last: Run)
    ensures Sorted(runs + [last]) <==> Sorted(runs) && AllPrecede(runs, last)
  {
    var all := runs + [last];
    assert all[|runs|] == last && forall i :: 0 <= i < |runs| ==> all[i] == runs[i];
    if Sorted(all) {
      forall i | 0 <= i < |runs| ensures Precedes(runs[i], last) { assert Precedes(all[i], all[|runs|]); }
      forall i, j | 0 <= i < j < |runs| ensures Precedes(runs[i], runs[j]) { assert Precedes(all[i], all[j]); }
    }
  }

  lemma BelowLast(runs: seq<Run>, last: Run, r: Run)
    requires AllPrecede(runs, last) && Precedes(last, r)
    ensures AllPrecede(runs + [last], r)
  {
    forall i | 0 <= i < |runs| ensures Precedes(runs[i], r) { CompareRunsIsTotalOrder(runs[i], last, r); }
  }

  lemma {:induction false} InsertBelow(runs: seq<Run>, r: Run, x: Run)
    requires AllPrecede(runs, x) && Precedes(r, x)
    ensures AllPrecede(Insert(runs, r), x)
  {
    if runs != [] && !Precedes(runs[|runs| - 1], r) { InsertBelow(runs[..|runs| - 1], r, x); }
  }

  lemma {:induction false} InsertKeeps(runs: seq<Run>, r: Run)
    requires Sorted(runs)
    ensures Sorted(Insert(runs, r)) && multiset(Insert(runs, r)) == multiset(runs) + multiset{r}
  {
    if runs != [] {
      var init, last := runs[..|runs| - 1], runs[|runs| - 1];
      assert runs == init + [last];
      SortedSnoc(init, last);
      CompareRunsIsTotalOrder(last, r, r);
      if Precedes(last, r) {
        BelowLast(init, last, r);
        SortedSnoc(runs, r);
      } else {
        InsertKeeps(init, r);
        InsertBelow(init, r, last);
        SortedSnoc(Insert(init, r), last);
      }
    }
  }

  lemma {:induction false} BoardIsSorted(runs: seq<Run>)
    ensures Sorted(Board(runs)) && multiset(Board(runs)) == multiset(runs)
  {
    if runs != [] {
      var init, last := runs[..|runs| - 1], runs[|runs| - 1];
      assert runs == init + [last];
      BoardIsSorted(init);
      InsertKeeps(Board(init), last);
    }
  }

  /** `render_runs`: any sort by `compare_runs` will do, see `BoardIsCanonical`. */
  method RenderRuns(runs: seq<Run>) returns (board: seq<Run>)
    ensures board == Board(runs) && Sorted(board) && multiset(board) == multiset(runs)
  {
    board := [];
    var i := 0;
    while i < |runs|
      invariant 0 <= i <= |runs| && board == Board(runs[..i])
    {
      assert runs[..i + 1][..i] == runs[..i];
      board := Insert(board, runs[i]);
      i := i + 1;
    }
    assert runs[..i] == runs;
    BoardIsSorted(runs);
  }

  /** The loader keeps one run per id. */
  ghost predicate DistinctIds(runs: multiset<Run>) {
    forall a, b :: a in runs && b in runs && a.id == b.id ==> a == b
  }

  lemma AtMostLast(runs: seq<Run>, x: Run)
    requires Sorted(runs) && x in runs
    ensures Precedes(x, runs[|runs| - 1])
  {
    var i :| 0 <= i < |runs| && runs[i] == x;
    CompareRunsIsTotalOrder(x, x, x);
  }

  lemma SameLast(x: Run, y: Run, runs: multiset<Run>)
    requires DistinctIds(runs) && x in runs && y in runs && Precedes(x, y) && Precedes(y, x)
    ensures x == y
  {
    CompareRunsIsTotalOrder(x, y, y);
  }

  lemma LastIsLargest(a: seq<Run>, b: seq<Run>)
    requires a != [] && b != [] && Sorted(a) && Sorted(b) && multiset(a) == multiset(b) && DistinctIds(multiset(a))
    ensures a[|a| - 1] == b[|b| - 1]
  {
    var x, y := a[|a| - 1], b[|b| - 1];
    assert x in multiset(a) && y in multiset(b);
    AtMostLast(a, y);
    AtMostLast(b, x);
    SameLast(x, y, multiset(a));
  }

  lemma WithoutLast(runs: seq<Run>)
    requires runs != [] && Sorted(runs) && DistinctIds(multiset(runs))
    ensures var init := runs[..|runs| - 1];
      Sorted(init) && DistinctIds(multiset(init)) && multiset(init) == multiset(runs) - multiset{runs[|runs| - 1]}
  {
    var init := runs[..|runs| - 1];
    assert runs == init + [runs[|runs| - 1]];
    SortedSnoc(init, runs[|runs| - 1]);
    assert forall r :: r in multiset(init) ==> r in multiset(runs);
  }

  lemma SameLength(a: seq<Run>, b: seq<Run>)
    requires multiset(a) == multiset(b)
    ensures |a| == |b|
  {
    assert |multiset(a)| == |multiset(b)|;
  }

  lemma Rejoined(a: seq<Run>, b: seq<Run>)
    requires |a| == |b| > 0 && a[..|a| - 1] == b[..|b| - 1] && a[|a| - 1] == b[|b| - 1]
    ensures a == b
  {
    assert a == a[..|a| - 1] + [a[|a| - 1]] && b == b[..|b| - 1] + [b[|b| - 1]];
  }

  lemma UniqueStep(a: seq<Run>, b: seq<Run>)
    requires a != [] && b != [] && Sorted(a) && Sorted(b) && multiset(a) == multiset(b) && DistinctIds(multiset(a))
    ensures var x, y := a[..|a| - 1], b[..|b| - 1];
      a[|a| - 1] == b[|b| - 1] && Sorted(x) && Sorted(y) && multiset(x) == multiset(y) && DistinctIds(multiset(x))
  {
    LastIsLargest(a, b);
    WithoutLast(a);
    WithoutLast(b);
  }

  lemma {:induction false} SortedIsUnique(a: seq<Run>, b: seq<Run>)
    requires Sorted(a) && Sorted(b) && multiset(a) == multiset(b) && DistinctIds(multiset(a))
    ensures a == b
  {
    SameLength(a, b);
    if a != [] {
      var x, y := a[..|a| - 1], b[..|b| - 1];
      UniqueStep(a, b);
      SortedIsUnique(x, y);
      Rejoined(a, b);
    }
  }

  /** The board is canonical: whatever order the runs are loaded in, and whichever sorting
      method is used, it lists them in the same sequence. */
  lemma BoardIsCanonical(runs: seq<Run>, shuffled: seq<Run>, sorted: seq<Run>)
    requires multiset(runs) == multiset(shuffled) == multiset(sorted) && Sorted(sorted) && DistinctIds(multiset(runs))
    ensures Board(runs) == Board(shuffled) == sorted
  {
    BoardIsSorted(runs);
    BoardIsSorted(shuffled);
    SortedIsUnique(Board(runs), Board(shuffled));
    SortedIsUnique(Board(runs), sorted);
  }

  /** Within one kind the board lists the runs updated earlier first, and those without a
      timestamp before all others. */
  lemma OldestFirst(runs: seq<Run>, i: nat, j: nat)
    requires i < j < |Board(runs)| && Board(runs)[i].kind == Board(runs)[j].kind
    ensures !Earlier(Board(runs)[j].updatedAt, Board(runs)[i].updatedAt)
  {
    BoardIsSorted(runs);
    LessIsStrictly(Board(runs)[j], Board(runs)[i]);
    CompareAntisymmetric(Board(runs)[i], Board(runs)[j]);
  }

  /** The kinds of runs in the order in which the board shows them. */
  const KINDS: seq<RunKind> := [Active, Stalled, Failed, Paused, Recent, Completed, Unknown]

  /** All active runs come before all stalled ones, and so on down the list of kinds. */
  lemma KindsInOrder(runs: seq<Run>, i: nat, j: nat, p: nat, q: nat)
    requires i < j < |Board(runs)| && p < |KINDS| && q < |KINDS|
    requires Board(runs)[i].kind == KINDS[p] && Board(runs)[j].kind == KINDS[q]
    ensures p <= q
  {
    BoardIsSorted(runs);
    LessIsStrictly(Board(runs)[j], Board(runs)[i]);
    CompareAntisymmetric(Board(runs)[i], Board(runs)[j]);
  }

  /** Runs of one kind that were updated at the same time are listed by when they started, then
      by their last heartbeat, then by their ids. */
  lemma TiesAreBroken(runs: seq<Run>, i: nat, j: nat)
    requires i < j < |Board(runs)| && Board(runs)[i].kind == Board(runs)[j].kind
    requires Board(runs)[i].updatedAt == Board(runs)[j].updatedAt
    ensures var a, b := Board(runs)[i], Board(runs)[j];
      && !Earlier(b.startedAt, a.startedAt)
      && (a.startedAt == b.startedAt ==>
            && !Earlier(b.lastHeartbeat, a.lastHeartbeat)
            && (a.lastHeartbeat == b.lastHeartbeat ==> !Text.Before(b.id, a.id)))
  {
    BoardIsSorted(runs);
    LessIsStrictly(Board(runs)[j], Board(runs)[i]);
    CompareAntisymmetric(Board(runs)[i], Board(runs)[j]);
  }

  /** So two runs of one kind are listed with the later one first only if neither is later. */
  lemma NewestFirstIff(runs: seq<Run>, i: nat, j: nat)
    requires i < j < |Board(runs)| && Board(runs)[i].kind == Board(runs)[j].kind
    ensures CompareTimestamp(Board(runs)[i].updatedAt, Board(runs)[j].updatedAt) != Greater <==>
            Board(runs)[i].updatedAt == Board(runs)[j].updatedAt
  {
    OldestFirst(runs, i, j);
  }

  const EARLIER := Run("a", Failed, Some(1), None, None, None)
  const LATER := Run("b", Failed, Some(2), None, None, None)
  const UNDATED := Run("c", Failed, None, None, None, None)

  lemma ThreeInOrder()
    ensures Precedes(UNDATED, EARLIER) && Precedes(EARLIER, LATER) && Precedes(UNDATED, LATER)
  {
  }

  /** Three failed runs, listed with the undated one first and the latest last. */
  lemma NewestComesLast()
    ensures Board([LATER, UNDATED, EARLIER]) == [UNDATED, EARLIER, LATER]
  {
    var runs, board := [LATER, UNDATED, EARLIER], [UNDATED, EARLIER, LATER];
    ThreeInOrder();
    hide Precedes, Board;
    assert multiset(runs) == multiset(board);
    BoardIsCanonical(runs, runs, board);
  }
}
