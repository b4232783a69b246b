/** The names a merge hands out, read off the scanned services: which name a service of a conflict
    gets, and when two merged services end up with the same one. */
module Renames {
  import opened Scan
  import Merge
  import Text

  /** The c-th name made for services called `o` of hosts of this kind. */
  function Rename(o: string, kind: HostKind, c: nat): string {
    if c <= 1 then Candidate(o, kind) else Numbered(Candidate(o, kind), c)
  }

  /** What renames look like, for every kind of host. */
  lemma RenamesLook()
    ensures Rename("a", Codex, 1) == "a-from-codex" && Rename("a", Codex, 2) == "a-from-codex-2"
    ensures Rename("a", Claude, 1) == "a-from-claude" && Rename("a", ClaudeDesktop, 1) == "a-from-claude-desktop"
    ensures Rename("a", Junie, 1) == "a-from-junie" && Rename("a", Gemini, 1) == "a-from-gemini"
    ensures Rename("a", Cursor, 1) == "a-from-cursor" && Rename("a", VSCode, 1) == "a-from-vscode"
    ensures Rename("a", JetBrains, 1) == "a-from-jetbrains" && Rename("a", Custom, 1) == "a-from-custom"
    ensures Rename("a", Unknown, 1) == "a-from-unknown"
  {
    assert Text.Decimal(2) == "2";
  }

  // ----- what is counted

  /** An earlier service of the same name does not differ from this one. */
  predicate Seen(all: seq<Variant>, svc: Service) {
    exists i :: 0 <= i < |all| && all[i].service.name == svc.name && Alike(all[i].service, svc)
  }

  /** How many classes of services called `o` were first found on a host of this kind. */
  function FirstFound(all: seq<Variant>, o: string, kind: HostKind): nat {
    if all == [] then 0
    else
      var init, last := all[..|all| - 1], all[|all| - 1];
      FirstFound(init, o, kind) +
      if last.service.name == o && last.host.kind == kind && !Seen(init, last.service) then 1 else 0
  }

  function OfKind(unique: seq<Variant>, kind: HostKind): nat {
    if unique == [] then 0
    else OfKind(unique[..|unique| - 1], kind) + if unique[|unique| - 1].host.kind == kind then 1 else 0
  }

  lemma OfKindNext(unique: seq<Variant>, v: Variant, kind: HostKind)
    ensures OfKind(unique + [v], kind) == OfKind(unique, kind) + if v.host.kind == kind then 1 else 0
  {
    assert (unique + [v])[..|unique|] == unique;
  }

  lemma SeenIsCovered(all: seq<Variant>, svc: Service)
    ensures Seen(all, svc) <==> Covers(Unique(all, svc.name), svc)
  {
    UniqueOf(all, svc.name);
    if Seen(all, svc) {
      var i :| 0 <= i < |all| && all[i].service.name == svc.name && Alike(all[i].service, svc);
      assert all[i] in all && Covers(Unique(all, svc.name), all[i].service);
    }
    if Covers(Unique(all, svc.name), svc) {
      var i :| 0 <= i < |Unique(all, svc.name)| && Equivalent(Unique(all, svc.name)[i].service, svc);
      var v := Unique(all, svc.name)[i];
      assert v in all && v.service.name == svc.name;
    }
  }

  lemma UniqueNext(all: seq<Variant>, v: Variant, o: string)
    ensures Unique(all + [v], o) == Unique(all, o) +
      if v.service.name == o && !Covers(Unique(all, o), v.service) then [v] else []
  {
    Merge.VariantsNext(all, v, o);
    DistinctNext(VariantsOf(all, o), v);
    assert VariantsOf(all, o) + [] == VariantsOf(all, o);
  }

  lemma {:induction false} FirstFoundCounts(all: seq<Variant>, o: string, kind: HostKind)
    ensures FirstFound(all, o, kind) == OfKind(Unique(all, o), kind)
  {
    if all != [] {
      var init, last := all[..|all| - 1], all[|all| - 1];
      assert init + [last] == all;
      FirstFoundCounts(init, o, kind);
      UniqueNext(init, last, o);
      SeenIsCovered(init, last.service);
      OfKindNext(Unique(init, o), last, kind);
      assert Unique(init, o) + [] == Unique(init, o);
    }
  }

  // ----- renames are told apart

  lemma LabelsHoldNoF(kind: HostKind)
    ensures 'f' !in Label(kind)
  {
  }

  lemma LabelsDiffer(a: HostKind, b: HostKind)
    requires Label(a) == Label(b)
    ensures a == b
  {
    assert |"codex"| == |"gemini"| - 1 && "codex"[1] == 'o' && "claude"[1] == 'l' && "junie"[0] == 'j';
  }

  /** What follows the infix. */
  function Tail(kind: HostKind, c: nat): string {
    if c <= 1 then Label(kind) else Label(kind) + "-" + Text.Decimal(c)
  }

  lemma RenameTail(o: string, kind: HostKind, c: nat)
    ensures Rename(o, kind, c) == o + "-from-" + Tail(kind, c)
  {
    hide Label, Text.Decimal;
    var n := Text.Decimal(c);
    assert c > 1 ==> o + "-from-" + Label(kind) + "-" + n == o + "-from-" + (Label(kind) + "-" + n);
  }

  lemma TailHoldsNoF(kind: HostKind, c: nat)
    ensures 'f' !in "rom-" + Tail(kind, c)
  {
    LabelsHoldNoF(kind);
    Text.DecimalRoundTrip(c);
    hide Label, Text.Decimal;
  }

  lemma RenameParts(o: string, kind: HostKind, c: nat)
    ensures Rename(o, kind, c) == (o + "-") + ['f'] + ("rom-" + Tail(kind, c))
    ensures 'f' !in "rom-" + Tail(kind, c)
  {
    hide Rename, Tail;
    RenameTail(o, kind, c);
    TailHoldsNoF(kind, c);
    InfixParts(o, Tail(kind, c));
  }

  lemma InfixParts(o: string, name: string)
    ensures o + "-from-" + name == (o + "-") + ['f'] + ("rom-" + name)
  {
    assert "-from-" == "-" + ['f'] + "rom-";
  }

  /** A label that could be taken for a numbered one would end in a digit. */
  lemma LabelsAreNotNumbered(kind: HostKind, label0: string, c: nat)
    ensures Label(kind) != label0 + "-" + Text.Decimal(c)
  {
    Text.DecimalRoundTrip(c);
    var s := label0 + "-" + Text.Decimal(c);
    assert s[|s| - 1] == Text.Decimal(c)[|Text.Decimal(c)| - 1];
    assert !Text.IsDigit(Label(kind)[|Label(kind)| - 1]);
  }

  lemma TailsDiffer(a: HostKind, m: nat, b: HostKind, n: nat)
    requires Tail(a, m) == Tail(b, n) && m >= 1 && n >= 1
    ensures a == b && m == n
  {
    if m == 1 && n == 1 {
      LabelsDiffer(a, b);
    } else if m == 1 {
      LabelsAreNotNumbered(a, Label(b), n);
    } else if n == 1 {
      LabelsAreNotNumbered(b, Label(a), m);
    } else {
      Text.DecimalRoundTrip(m);
      Text.DecimalRoundTrip(n);
      Text.LastSplits(Label(a), Text.Decimal(m), Label(b), Text.Decimal(n), '-');
      LabelsDiffer(a, b);
      Text.DecimalInjective(m, n);
    }
  }

  /** A rename tells which service it was made for: its name, the kind of its host and the number. */
  lemma RenamesDiffer(o: string, a: HostKind, m: nat, p: string, b: HostKind, n: nat)
    requires Rename(o, a, m) == Rename(p, b, n) && m >= 1 && n >= 1
    ensures o == p && a == b && m == n
  {
    RenameParts(o, a, m);
    RenameParts(p, b, n);
    Text.LastSplits(o + "-", "rom-" + Tail(a, m), p + "-", "rom-" + Tail(b, n), 'f');
    assert (o + "-")[..|o|] == o && (p + "-")[..|p|] == p;
    assert ("rom-" + Tail(a, m))[4..] == Tail(a, m) && ("rom-" + Tail(b, n))[4..] == Tail(b, n);
    TailsDiffer(a, m, b, n);
  }

  // ----- the names of one conflict

  ghost predicate IsRenameOf(unique: seq<Variant>, o: string, x: string) {
    exists kind, c: nat :: 1 <= c <= OfKind(unique, kind) && x == Rename(o, kind, c)
  }

  /** Nothing in use looks like a rename of `o`. */
  ghost predicate NoRenames(used: set<string>, o: string) {
    forall kind, c: nat :: c >= 1 ==> Rename(o, kind, c) !in used
  }

  lemma {:induction false} FreshFromIs(used: set<string>, candidate: string, k: nat, c: nat)
    requires 2 <= k <= c && TakenBelow(used, candidate, c) && Numbered(candidate, c) !in used
    ensures TakenBelow(used, candidate, k) && FreshFrom(used, candidate, k) == Numbered(candidate, c)
    decreases c - k
  {
    if k < c { FreshFromIs(used, candidate, k + 1, c); }
  }

  /** With the first renames taken, the next one is given. */
  lemma FreshIsNext(used: set<string>, o: string, kind: HostKind, c: nat)
    requires c >= 1 && Rename(o, kind, c) !in used
    requires forall j: nat :: 1 <= j < c ==> Rename(o, kind, j) in used
    ensures Fresh(used, Candidate(o, kind)) == Rename(o, kind, c)
  {
    if c > 1 {
      var candidate := Candidate(o, kind);
      assert candidate == Rename(o, kind, 1);
      forall j | 2 <= j < c ensures Numbered(candidate, j) in used {
        assert Rename(o, kind, j) == Numbered(candidate, j);
      }
      FreshFromIs(used, candidate, 2, c);
    }
  }

  lemma IsRenameNext(unique: seq<Variant>, v: Variant, o: string, x: string)
    ensures IsRenameOf(unique + [v], o, x) <==>
            IsRenameOf(unique, o, x) || x == Rename(o, v.host.kind, OfKind(unique, v.host.kind) + 1)
  {
    hide Rename, OfKind;
    forall kind ensures OfKind(unique + [v], kind) == OfKind(unique, kind) + if v.host.kind == kind then 1 else 0 {
      OfKindNext(unique, v, kind);
    }
    var c := OfKind(unique, v.host.kind) + 1;
    if x == Rename(o, v.host.kind, c) { assert 1 <= c <= OfKind(unique + [v], v.host.kind); }
    if kind, n: nat :| 1 <= n <= OfKind(unique + [v], kind) && x == Rename(o, kind, n) {
      assert n <= OfKind(unique, kind) || (kind == v.host.kind && n == c);
    }
  }

  lemma {:induction false} RenamesGiven(unique: seq<Variant>, o: string, used: set<string>)
    requires NoRenames(used, o)
    ensures forall x :: x in Elements(NewNames(unique, o, used)) <==> IsRenameOf(unique, o, x)
  {
    if unique != [] {
      var init, last := unique[..|unique| - 1], unique[|unique| - 1];
      assert init + [last] == unique;
      RenamesGiven(init, o, used);
      NextGiven(init, last, o, used);
    }
  }

  lemma NextGiven(init: seq<Variant>, v: Variant, o: string, used: set<string>)
    requires NoRenames(used, o)
    requires forall x :: x in Elements(NewNames(init, o, used)) <==> IsRenameOf(init, o, x)
    ensures forall x :: x in Elements(NewNames(init + [v], o, used)) <==> IsRenameOf(init + [v], o, x)
  {
    hide Rename, OfKind, NewNames;
    var names, kind := NewNames(init, o, used), v.host.kind;
    var c := OfKind(init, kind) + 1;
    NextIsFree(init, o, kind);
    forall j: nat | 1 <= j < c ensures Rename(o, kind, j) in used + Elements(names) {
      assert IsRenameOf(init, o, Rename(o, kind, j));
    }
    FreshIsNext(used + Elements(names), o, kind, c);
    NewNamesNext(init, v, o, used);
    ElementsSnoc(names, Rename(o, kind, c));
    hide IsRenameOf, Fresh, Elements;
    forall x ensures x in Elements(NewNames(init + [v], o, used)) <==> IsRenameOf(init + [v], o, x) {
      IsRenameNext(init, v, o, x);
    }
  }

  lemma NextIsFree(init: seq<Variant>, o: string, kind: HostKind)
    ensures !IsRenameOf(init, o, Rename(o, kind, OfKind(init, kind) + 1))
  {
    var c := OfKind(init, kind) + 1;
    if k, n: nat :| 1 <= n <= OfKind(init, k) && Rename(o, kind, c) == Rename(o, k, n) {
      RenamesDiffer(o, kind, c, o, k, n);
    }
  }

  // ----- the names of a whole merge

  ghost predicate Ascending(names: seq<string>) {
    forall i, j :: 0 <= i < j < |names| ==> Text.Before(names[i], names[j])
  }

  /** A service called `o` ends up under this name. */
  ghost predicate GivenFor(all: seq<Variant>, o: string, x: string) {
    if |Unique(all, o)| == 1 then x == o else IsRenameOf(Unique(all, o), o, x)
  }

  ghost predicate Given(names: seq<string>, all: seq<Variant>, x: string) {
    exists o :: o in names && GivenFor(all, o, x)
  }

  lemma GivenNext(names: seq<string>, all: seq<Variant>, o: string, x: string)
    ensures Given(names + [o], all, x) <==> Given(names, all, x) || GivenFor(all, o, x)
  {
    hide GivenFor;
    if GivenFor(all, o, x) { assert o in names + [o]; }
    if Given(names, all, x) {
      var p :| p in names && GivenFor(all, p, x);
      assert p in names + [o];
    }
  }

  lemma {:induction false} BeforeExtension(o: string, tail: string)
    requires tail != []
    ensures Text.Before(o, o + tail)
  {
    if o != [] {
      assert (o + tail)[1..] == o[1..] + tail;
      BeforeExtension(o[1..], tail);
    }
  }

  lemma RenameComesAfter(o: string, kind: HostKind, c: nat)
    ensures Text.Before(o, Rename(o, kind, c))
  {
    hide Rename, Tail;
    RenameTail(o, kind, c);
    assert o + "-from-" + Tail(kind, c) == o + ("-from-" + Tail(kind, c));
    BeforeExtension(o, "-from-" + Tail(kind, c));
  }

  /** Names that come before `o` are given nothing that looks like a rename of it. */
  lemma EarlierGiveNoRenames(p: string, all: seq<Variant>, o: string, kind: HostKind, c: nat)
    requires Text.Before(p, o) && c >= 1
    ensures !GivenFor(all, p, Rename(o, kind, c))
  {
    hide Rename, OfKind, Unique;
    Text.BeforeTrichotomy(p, o);
    Text.BeforeTrichotomy(o, o);
    RenameComesAfter(o, kind, c);
    if p == Rename(o, kind, c) { Text.BeforeTrichotomy(o, p); }
    if k, n: nat :| 1 <= n <= OfKind(Unique(all, p), k) && Rename(o, kind, c) == Rename(p, k, n) {
      RenamesDiffer(o, kind, c, p, k, n);
    }
  }

  ghost predicate UsesGiven(names: seq<string>, all: seq<Variant>) {
    forall x :: x in NamesUsed(MergeNames(names, all)) <==> Given(names, all, x)
  }

  lemma UsedTogether(xs: seq<Output>, ys: seq<Output>)
    ensures NamesUsed(xs + ys) == NamesUsed(xs) + NamesUsed(ys)
  {
    forall x | x in NamesUsed(xs) + NamesUsed(ys) ensures x in NamesUsed(xs + ys) {
      if x in NamesUsed(xs) {
        var o :| o in xs && o.service.name == x;
        assert o in xs + ys;
      } else {
        var o :| o in ys && o.service.name == x;
        assert o in xs + ys;
      }
    }
  }

  lemma OneIsKept(all: seq<Variant>, o: string, used: set<string>)
    requires |Unique(all, o)| == 1
    ensures NamesUsed(MergeName(Unique(all, o), o, used)) == {o}
  {
    UniqueOf(all, o);
    assert Unique(all, o)[0] in Unique(all, o);
    var more := MergeName(Unique(all, o), o, used);
    assert more == [Output(o, Unique(all, o)[0].service)] && more[0] in more;
  }

  lemma NameGives(names: seq<string>, all: seq<Variant>, o: string)
    requires UsesGiven(names, all) && forall p :: p in names ==> Text.Before(p, o)
    ensures UsesGiven(names + [o], all)
  {
    var before, unique := MergeNames(names, all), Unique(all, o);
    var used := NamesUsed(before);
    MergeNamesNext(names, all, o);
    if |unique| == 1 {
      UsedTogether(before, MergeName(unique, o, used));
      OneIsKept(all, o, used);
    } else {
      EarlierNamesAreFree(names, all, o);
      NamesOfRenamed(before, unique, o);
      RenamesGiven(unique, o, used);
    }
    forall x ensures x in NamesUsed(MergeNames(names + [o], all)) <==> Given(names + [o], all, x) {
      GivenNext(names, all, o, x);
    }
  }

  lemma EarlierNamesAreFree(names: seq<string>, all: seq<Variant>, o: string)
    requires UsesGiven(names, all) && forall p :: p in names ==> Text.Before(p, o)
    ensures NoRenames(NamesUsed(MergeNames(names, all)), o)
  {
    hide Rename, GivenFor;
    forall kind, c: nat | c >= 1 ensures Rename(o, kind, c) !in NamesUsed(MergeNames(names, all)) {
      forall p | p in names ensures !GivenFor(all, p, Rename(o, kind, c)) {
        EarlierGiveNoRenames(p, all, o, kind, c);
      }
    }
  }

  lemma AscendingSnoc(names: seq<string>, o: string)
    requires Ascending(names + [o])
    ensures Ascending(names) && forall p :: p in names ==> Text.Before(p, o)
  {
    var more := names + [o];
    assert more[|names|] == o && forall i :: 0 <= i < |names| ==> more[i] == names[i];
    forall i, j | 0 <= i < j < |names| ensures Text.Before(names[i], names[j]) { assert more[j] == names[j]; }
  }

  ghost predicate UsesGivenUnder(names: seq<string>, all: seq<Variant>) {
    Ascending(names) ==> UsesGiven(names, all)
  }

  /** What a merge calls its services: a name without conflict is kept, and for the others the
      first renames are handed out, one to a class. */
  lemma NamesHandedOut(names: seq<string>, all: seq<Variant>)
    requires Ascending(names)
    ensures UsesGiven(names, all)
  {
    forall xs, x ensures UsesGivenUnder(xs, all) ==> UsesGivenUnder(xs + [x], all) {
      if UsesGivenUnder(xs, all) && Ascending(xs + [x]) {
        AscendingSnoc(xs, x);
        NameGives(xs, all, x);
      }
    }
    assert UsesGivenUnder([], all);
    Merge.NamesOneByOne(names, xs => UsesGivenUnder(xs, all));
  }

  // ----- read off the scans

  /** Some service is renamed to this: the services called `o` differ, and `c` of their classes
      or more were first found on hosts of this kind. */
  ghost predicate MakesRename(all: seq<Variant>, o: string, kind: HostKind, c: nat) {
    Merge.Conflicting(all, o) && 1 <= c <= FirstFound(all, o, kind)
  }

  lemma RenamesOfConflict(all: seq<Variant>, o: string, x: string)
    requires o in Names(all) && |Unique(all, o)| != 1
    ensures IsRenameOf(Unique(all, o), o, x) <==>
            exists kind, c: nat :: MakesRename(all, o, kind, c) && x == Rename(o, kind, c)
  {
    hide Rename, FirstFound, OfKind, Unique, Merge.Conflicting;
    Merge.ManyVariantsIff(all, o);
    forall kind ensures FirstFound(all, o, kind) == OfKind(Unique(all, o), kind) { FirstFoundCounts(all, o, kind); }
    if kind, c: nat :| 1 <= c <= OfKind(Unique(all, o), kind) && x == Rename(o, kind, c) {
      assert MakesRename(all, o, kind, c);
    }
  }

  lemma SortedAscends(all: seq<Variant>)
    ensures Ascending(Text.Sorted(Names(all)))
    ensures forall n :: n in Text.Sorted(Names(all)) <==> n in Names(all)
  {
    Text.SortedEnumerates(Names(all));
  }

  lemma ConflictsHaveNames(all: seq<Variant>, o: string)
    requires Merge.Conflicting(all, o)
    ensures o in Names(all)
  {
  }

  /** The names after a merge, read off the scans: those without conflict, and for every other
      name and kind of host as many renames as classes were first found there. */
  lemma MergedNames(scans: seq<ScanResult>, x: string)
    ensures var all := All(scans);
      x in NamesUsed(Merged(scans)) <==>
        || (x in Names(all) && !Merge.Conflicting(all, x))
        || (exists o, kind, c: nat :: MakesRename(all, o, kind, c) && x == Rename(o, kind, c))
  {
    hide Rename, Unique, Merge.Conflicting, FirstFound;
    var all := All(scans);
    var names := Text.Sorted(Names(all));
    SortedAscends(all);
    NamesHandedOut(names, all);
    forall o | o in names
      ensures |Unique(all, o)| != 1 <==> Merge.Conflicting(all, o)
      ensures Merge.Conflicting(all, o) ==>
        (IsRenameOf(Unique(all, o), o, x) <==>
         exists kind, c: nat :: MakesRename(all, o, kind, c) && x == Rename(o, kind, c))
    {
      Merge.ManyVariantsIff(all, o);
      if Merge.Conflicting(all, o) { RenamesOfConflict(all, o, x); }
    }
    if o, kind, c: nat :| MakesRename(all, o, kind, c) && x == Rename(o, kind, c) {
      ConflictsHaveNames(all, o);
      assert o in names && GivenFor(all, o, x);
    }
    if x in Names(all) && !Merge.Conflicting(all, x) { assert x in names && GivenFor(all, x, x); }
  }

  /** No service that keeps its name is called like a rename. */
  ghost predicate NoneCalledLikeARename(all: seq<Variant>) {
    forall o, kind, c: nat :: MakesRename(all, o, kind, c) ==>
      Rename(o, kind, c) !in Names(all) || Merge.Conflicting(all, Rename(o, kind, c))
  }

  /** Where a name that is kept stands in the order decides nothing: the renames it could meet
      are all made before. */
  lemma TakenIff(names: seq<string>, all: seq<Variant>, i: nat)
    requires Ascending(names) && (forall n :: n in names <==> n in Names(all))
    requires i < |names| && |Unique(all, names[i])| == 1
    ensures names[i] in NamesUsed(MergeNames(names[..i], all)) <==>
            exists o, kind, c: nat :: MakesRename(all, o, kind, c) && names[i] == Rename(o, kind, c)
  {
    hide Rename, Unique, Merge.Conflicting, FirstFound;
    var n, earlier := names[i], names[..i];
    NamesHandedOut(earlier, all);
    if Given(earlier, all, n) {
      var o :| o in earlier && GivenFor(all, o, n);
      var j :| 0 <= j < i && names[j] == o;
      Text.BeforeTrichotomy(o, o);
      assert Text.Before(o, n) && o != n && o in names;
      RenamesOfConflict(all, o, n);
    }
    if o, kind, c: nat :| MakesRename(all, o, kind, c) && n == Rename(o, kind, c) {
      ConflictsHaveNames(all, o);
      Merge.ManyVariantsIff(all, o);
      RenamesOfConflict(all, o, n);
      RenameComesAfter(o, kind, c);
      EarlierStandsBefore(names, o, i);
      assert GivenFor(all, o, n);
    }
  }

  lemma EarlierStandsBefore(names: seq<string>, o: string, i: nat)
    requires Ascending(names) && o in names && i < |names| && Text.Before(o, names[i])
    ensures o in names[..i]
  {
    var j :| 0 <= j < |names| && names[j] == o;
    Text.BeforeTrichotomy(o, names[i]);
    Text.BeforeTrichotomy(o, o);
    assert j < i;
    assert names[..i][j] == o;
  }

  /** The merged names are distinct exactly when no service that keeps its name is called like
      one of the renames: `o-from-L` if some class of the conflicting services called `o` was
      first found on a host labelled L, and `o-from-L-2` up to `o-from-L-c` if c classes were. */
  lemma MergedNamesDistinctIff(scans: seq<ScanResult>)
    ensures Merge.DistinctNames(Merged(scans)) <==> NoneCalledLikeARename(All(scans))
  {
    hide Rename, Unique, Merge.Conflicting, FirstFound, NamesUsed, MergeNames;
    var all := All(scans);
    var names := Text.Sorted(Names(all));
    SortedAscends(all);
    Merge.DistinctIffNothingTaken(scans);
    forall i | 0 <= i < |names|
      ensures |Unique(all, names[i])| == 1 <==> !Merge.Conflicting(all, names[i])
      ensures |Unique(all, names[i])| == 1 ==>
        (names[i] in NamesUsed(MergeNames(names[..i], all)) <==>
         exists o, kind, c: nat :: MakesRename(all, o, kind, c) && names[i] == Rename(o, kind, c))
    {
      Merge.ManyVariantsIff(all, names[i]);
      if |Unique(all, names[i])| == 1 { TakenIff(names, all, i); }
    }
    forall o, kind, c: nat | MakesRename(all, o, kind, c) && Rename(o, kind, c) in Names(all) &&
      !Merge.Conflicting(all, Rename(o, kind, c))
      ensures !Merge.NoClash(names, all)
    {
      var i :| 0 <= i < |names| && names[i] == Rename(o, kind, c);
      assert names[i] in NamesUsed(MergeNames(names[..i], all));
    }
  }

  // ----- which service of a class is kept

  /** The first service of its name and class that was found. */
  ghost predicate IsFirst(all: seq<Variant>, i: nat) {
    i < |all| && forall j :: 0 <= j < i && all[j].service.name == all[i].service.name ==>
                   !Alike(all[j].service, all[i].service)
  }

  ghost predicate IsOneOfTheFirst(all: seq<Variant>, v: Variant) {
    exists i: nat :: IsFirst(all, i) && all[i] == v
  }

  lemma FirstStaysFirst(all: seq<Variant>, v: Variant, w: Variant)
    requires IsOneOfTheFirst(all, v)
    ensures IsOneOfTheFirst(all + [w], v)
  {
    hide Alike;
    var i: nat :| IsFirst(all, i) && all[i] == v;
    assert forall j :: 0 <= j <= i ==> (all + [w])[j] == all[j];
    assert IsFirst(all + [w], i);
  }

  lemma NewIsFirst(all: seq<Variant>, v: Variant)
    requires !Seen(all, v.service)
    ensures IsOneOfTheFirst(all + [v], v)
  {
    assert (all + [v])[|all|] == v && forall j :: 0 <= j < |all| ==> (all + [v])[j] == all[j];
    assert IsFirst(all + [v], |all|);
  }

  lemma {:induction false} UniqueAreFirst(all: seq<Variant>, name: string)
    ensures forall v :: v in Unique(all, name) ==> IsOneOfTheFirst(all, v)
  {
    hide Unique, IsOneOfTheFirst;
    if all == [] {
      assert Unique(all, name) == [] by { NothingUnique(name); }
    } else {
      var init, last := all[..|all| - 1], all[|all| - 1];
      assert init + [last] == all;
      UniqueAreFirst(init, name);
      UniqueNext(init, last, name);
      SeenIsCovered(init, last.service);
      forall v | v in Unique(all, name) ensures IsOneOfTheFirst(all, v) {
        if v in Unique(init, name) { FirstStaysFirst(init, v, last); } else { NewIsFirst(init, last); }
      }
    }
  }

  lemma NothingUnique(name: string)
    ensures Unique([], name) == []
  {
  }

  /** The output is the first service of its class, with at most its name replaced. */
  ghost predicate CopiesFirst(all: seq<Variant>, o: Output) {
    exists v :: IsOneOfTheFirst(all, v) && Merge.IsCopy(o, v)
  }

  ghost predicate AllCopyFirst(names: seq<string>, all: seq<Variant>) {
    forall o :: o in MergeNames(names, all) ==> CopiesFirst(all, o)
  }

  lemma NameCopiesFirst(all: seq<Variant>, name: string, used: set<string>)
    ensures forall o :: o in MergeName(Unique(all, name), name, used) ==> CopiesFirst(all, o)
  {
    var unique := Unique(all, name);
    var more := MergeName(unique, name, used);
    UniqueAreFirst(all, name);
    UniqueOf(all, name);
    hide IsOneOfTheFirst, Unique;
    forall o | o in more ensures CopiesFirst(all, o) {
      var i :| 0 <= i < |more| && more[i] == o;
      assert unique[i] in unique;
      assert Merge.IsCopy(o, unique[i]);
    }
  }

  /** Of every class the merge keeps the service that was found first, its flag included. */
  lemma MergeKeepsTheFirst(scans: seq<ScanResult>, o: Output)
    requires o in Merged(scans)
    ensures CopiesFirst(All(scans), o)
  {
    hide CopiesFirst, MergeName, Unique;
    var all := All(scans);
    var names := Text.Sorted(Names(all));
    forall xs, x ensures AllCopyFirst(xs, all) ==> AllCopyFirst(xs + [x], all) {
      MergeNamesNext(xs, all, x);
      NameCopiesFirst(all, x, NamesUsed(MergeNames(xs, all)));
    }
    assert AllCopyFirst([], all);
    Merge.NamesOneByOne(names, xs => AllCopyFirst(xs, all));
  }
}
