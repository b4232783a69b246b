/** What merging the services of several hosts promises. */
module Merge {
  import opened Wrappers
  import opened Scan
  import Text

  /** What holds of no names, and survives one more, holds of all of them. */
  lemma {:induction false} NamesOneByOne(names: seq<string>, p: seq<string> -> bool)
    requires p([]) && forall xs, x :: p(xs) ==> p(xs + [x])
    ensures p(names)
  {
    if names != [] {
      var init, last := names[..|names| - 1], names[|names| - 1];
      assert names == init + [last];
      NamesOneByOne(init, p);
      assert p(init + [last]);
    }
  }

  // ----- a partition into equivalence classes

  /** The output stands for this service. */
  predicate Represents(o: Output, v: Variant) {
    o.origin == v.service.name && Alike(o.service, v.service)
  }

  /** The name itself or a `-from-` rename of it. */
  predicate NamedAfter(name: string, origin: string) {
    name == origin || Text.StartsWith(name, origin + "-from-")
  }

  ghost predicate Represented(outputs: seq<Output>, v: Variant) {
    exists o :: o in outputs && Represents(o, v)
  }

  /** The output is one of the services that were found, with at most its name replaced. */
  ghost predicate Genuine(o: Output, all: seq<Variant>) {
    NamedAfter(o.service.name, o.origin) && exists v :: v in all && IsCopy(o, v)
  }

  predicate IsCopy(o: Output, v: Variant) {
    Represents(o, v) && o.service.enabled == v.service.enabled
  }

  ghost predicate ClassesApart(outputs: seq<Output>) {
    forall i, j :: 0 <= i < j < |outputs| && outputs[i].origin == outputs[j].origin ==>
      !Alike(outputs[i].service, outputs[j].service)
  }

  /** The outputs correspond one to one to the classes of the services with these names. */
  ghost predicate Partition(outputs: seq<Output>, all: seq<Variant>, names: seq<string>) {
    && (forall v :: v in all && v.service.name in names ==> Represented(outputs, v))
    && (forall o :: o in outputs ==> Genuine(o, all) && o.origin in names)
    && ClassesApart(outputs)
  }

  lemma FreshAfter(name: string, v: Variant, used: set<string>)
    ensures Text.StartsWith(Fresh(used, Candidate(name, v.host.kind)), name + "-from-")
  {
    var candidate := Candidate(name, v.host.kind);
    FreshExtends(used, candidate);
    assert Text.StartsWith(candidate, name + "-from-");
  }

  lemma {:induction false} NewNamesAfter(unique: seq<Variant>, name: string, used: set<string>, i: nat)
    requires i < |unique|
    ensures Text.StartsWith(NewNames(unique, name, used)[i], name + "-from-")
  {
    var init, last := unique[..|unique| - 1], unique[|unique| - 1];
    assert init + [last] == unique;
    NewNamesNext(init, last, name, used);
    if i < |init| {
      NewNamesAfter(init, name, used, i);
    } else {
      FreshAfter(name, last, used + Elements(NewNames(init, name, used)));
    }
  }

  lemma MergeNameShape(unique: seq<Variant>, name: string, used: set<string>, i: nat)
    requires i < |unique| && forall v :: v in unique ==> v.service.name == name
    ensures var more := MergeName(unique, name, used);
      |more| == |unique| && Represents(more[i], unique[i]) && NamedAfter(more[i].service.name, name)
  {
    if |unique| != 1 { NewNamesAfter(unique, name, used, i); }
    assert unique[i] in unique;
  }

  lemma MergeNameRepresents(all: seq<Variant>, name: string, used: set<string>, v: Variant)
    requires v in all && v.service.name == name
    ensures Represented(MergeName(Unique(all, name), name, used), v)
  {
    var unique := Unique(all, name);
    UniqueOf(all, name);
    var i :| 0 <= i < |unique| && Alike(unique[i].service, v.service);
    MergeNameShape(unique, name, used, i);
    assert MergeName(unique, name, used)[i] in MergeName(unique, name, used);
  }

  lemma MergeNameGenuine(all: seq<Variant>, name: string, used: set<string>, i: nat)
    requires i < |Unique(all, name)|
    ensures var more := MergeName(Unique(all, name), name, used);
      i < |more| && Genuine(more[i], all) && more[i].origin == name
  {
    UniqueOf(all, name);
    var unique := Unique(all, name);
    MergeNameShape(unique, name, used, i);
    assert unique[i] in all;
  }

  lemma MergeNameApart(all: seq<Variant>, name: string, used: set<string>)
    ensures var more := MergeName(Unique(all, name), name, used);
      ClassesApart(more) && |more| == |Unique(all, name)|
  {
    var unique := Unique(all, name);
    UniqueOf(all, name);
    var more := MergeName(unique, name, used);
    forall i, j | 0 <= i < j < |more| ensures !Alike(more[i].service, more[j].service) {
      MergeNameShape(unique, name, used, i);
      MergeNameShape(unique, name, used, j);
      assert !Alike(unique[i].service, unique[j].service);
    }
  }

  ghost predicate NoRepeats(names: seq<string>) {
    forall i, j :: 0 <= i < j < |names| ==> names[i] != names[j]
  }

  lemma ApartConcat(xs: seq<Output>, ys: seq<Output>)
    requires ClassesApart(xs) && ClassesApart(ys)
    requires forall x, y :: x in xs && y in ys ==> x.origin != y.origin
    ensures ClassesApart(xs + ys)
  {
    var all := xs + ys;
    forall i, j | 0 <= i < j < |all| && all[i].origin == all[j].origin
      ensures !Alike(all[i].service, all[j].service) {
    }
  }

  lemma PartitionNext(outputs: seq<Output>, all: seq<Variant>, names: seq<string>, name: string)
    requires Partition(outputs, all, names) && name !in names
    ensures Partition(outputs + MergeName(Unique(all, name), name, NamesUsed(outputs)), all, names + [name])
  {
    hide Unique, MergeName, Genuine;
    var used := NamesUsed(outputs);
    var more := MergeName(Unique(all, name), name, used);
    MergeNameApart(all, name, used);
    forall o | o in more ensures Genuine(o, all) && o.origin == name {
      var i :| 0 <= i < |more| && more[i] == o;
      MergeNameGenuine(all, name, used, i);
    }
    ApartConcat(outputs, more);
    forall v | v in all && v.service.name in names + [name] ensures Represented(outputs + more, v) {
      if v.service.name == name {
        MergeNameRepresents(all, name, used, v);
        var o :| o in more && Represents(o, v);
        assert o in outputs + more;
      } else {
        var o :| o in outputs && Represents(o, v);
        assert o in outputs + more;
      }
    }
  }

  ghost predicate PartitionUnder(names: seq<string>, all: seq<Variant>) {
    NoRepeats(names) ==> Partition(MergeNames(names, all), all, names)
  }

  lemma NoRepeatsSnoc(names: seq<string>, name: string)
    requires NoRepeats(names + [name])
    ensures NoRepeats(names) && name !in names
  {
    var more := names + [name];
    assert more[|names|] == name && forall i :: 0 <= i < |names| ==> more[i] == names[i];
    forall i, j | 0 <= i < j < |names| ensures names[i] != names[j] { assert more[i] != more[j]; }
  }

  lemma MergeNamesPartition(names: seq<string>, all: seq<Variant>)
    requires NoRepeats(names)
    ensures Partition(MergeNames(names, all), all, names)
  {
    forall xs, x ensures PartitionUnder(xs, all) ==> PartitionUnder(xs + [x], all) {
      if PartitionUnder(xs, all) && NoRepeats(xs + [x]) {
        NoRepeatsSnoc(xs, x);
        MergeNamesNext(xs, all, x);
        PartitionNext(MergeNames(xs, all), all, xs, x);
      }
    }
    NamesOneByOne(names, xs => PartitionUnder(xs, all));
  }

  lemma SortedNames(all: seq<Variant>)
    ensures NoRepeats(Text.Sorted(Names(all)))
    ensures forall n :: n in Text.Sorted(Names(all)) <==> n in Names(all)
  {
    var names := Text.Sorted(Names(all));
    Text.SortedEnumerates(Names(all));
    forall i, j | 0 <= i < j < |names| ensures names[i] != names[j] {
      assert Text.Before(names[i], names[j]);
      Text.BeforeTrichotomy(names[i], names[i]);
    }
  }

  /** Merging is a partition by equivalence: every scanned service has exactly one equivalent
      output under its own name or a `-from-` rename of it, and there are no other outputs. */
  lemma MergeIsPartition(scans: seq<ScanResult>)
    ensures var outputs, all := Merged(scans), All(scans);
      && (forall v :: v in all ==> Represented(outputs, v))
      && (forall o :: o in outputs ==> Genuine(o, all))
      && ClassesApart(outputs)
  {
    var all := All(scans);
    SortedNames(all);
    MergeNamesPartition(Text.Sorted(Names(all)), all);
  }

  lemma FindRepresentative(outputs: seq<Output>, all: seq<Variant>, v: Variant) returns (i: nat)
    requires Represented(outputs, v) && forall o :: o in outputs ==> Genuine(o, all)
    ensures i < |outputs| && Represents(outputs[i], v) && NamedAfter(outputs[i].service.name, v.service.name)
  {
    var o :| o in outputs && Represents(o, v);
    assert Genuine(o, all);
    i :| 0 <= i < |outputs| && outputs[i] == o;
  }

  /** The output that stands for a scanned service. */
  lemma Representative(scans: seq<ScanResult>, v: Variant) returns (i: nat)
    requires v in All(scans)
    ensures var outputs := Merged(scans);
      i < |outputs| && Represents(outputs[i], v) && NamedAfter(outputs[i].service.name, v.service.name)
  {
    MergeIsPartition(scans);
    i := FindRepresentative(Merged(scans), All(scans), v);
  }

  lemma {:induction false} ScannedIsFound(scans: seq<ScanResult>, k: nat, svc: Service)
    requires k < |scans| && svc in scans[k].services
    ensures Variant(scans[k].host, svc) in All(scans)
  {
    var init, last := scans[..|scans| - 1], scans[|scans| - 1];
    if k < |init| {
      ScannedIsFound(init, k, svc);
    } else {
      var j :| 0 <= j < |last.services| && last.services[j] == svc;
      var vs := seq(|last.services|, i requires 0 <= i < |last.services| => Variant(last.host, last.services[i]));
      assert vs[j] in vs;
    }
  }

  // ----- conflicts

  /** Two services of this name differ in more than name and enabled flag. */
  ghost predicate Conflicting(all: seq<Variant>, name: string) {
    exists v, w :: v in all && w in all && v.service.name == name && w.service.name == name &&
                   !Alike(v.service, w.service)
  }

  lemma ManyVariantsIff(all: seq<Variant>, name: string)
    requires name in Names(all)
    ensures |Unique(all, name)| != 1 <==> Conflicting(all, name)
  {
    var unique := Unique(all, name);
    UniqueOf(all, name);
    if |unique| != 1 {
      assert unique[0] in all && unique[1] in all;
    } else {
      forall v, w | v in all && w in all && v.service.name == name && w.service.name == name
        ensures Alike(v.service, w.service)
      {
        assert HasAlike(unique, v.service) && HasAlike(unique, w.service);
      }
    }
  }

  lemma {:induction false} ReportedIff(names: seq<string>, all: seq<Variant>, c: Conflict)
    ensures c in ConflictsIn(names, all) <==>
            c.name in names && |Unique(all, c.name)| != 1 && c.variants == Unique(all, c.name)
  {
    if names != [] { ReportedIff(names[..|names| - 1], all, c); }
  }

  /** A conflict is reported for a name exactly when two of its services are not equivalent,
      and the report holds one service of every class. */
  lemma ConflictsReportedIff(scans: seq<ScanResult>, name: string)
    ensures var all := All(scans);
      && (Conflicting(all, name) <==> exists c :: c in Conflicts(scans) && c.name == name)
      && forall c :: c in Conflicts(scans) && c.name == name ==>
           && PairwiseDifferent(c.variants)
           && (forall v :: v in c.variants ==> v in all && v.service.name == name)
           && (forall v :: v in all && v.service.name == name ==> HasAlike(c.variants, v.service))
  {
    var all := All(scans);
    var names := Text.Sorted(Names(all));
    SortedNames(all);
    UniqueOf(all, name);
    var report := Conflict(name, Unique(all, name));
    ReportedIff(names, all, report);
    forall c | c in Conflicts(scans) && c.name == name ensures c == report {
      ReportedIff(names, all, c);
    }
    if name in Names(all) { ManyVariantsIff(all, name); }
  }

  /** Services of one name that differ in nothing but the enabled flag. */
  ghost predicate DifferInFlagOnly(all: seq<Variant>, name: string) {
    forall v, w :: v in all && w in all && v.service.name == name && w.service.name == name ==>
      w.service == v.service.(enabled := w.service.enabled)
  }

  /** The flag counts for nothing: such services become one, and no conflict is reported. */
  lemma EnabledFlagIsIgnored(scans: seq<ScanResult>, name: string)
    requires name in Names(All(scans)) && DifferInFlagOnly(All(scans), name)
    ensures forall c :: c in Conflicts(scans) ==> c.name != name
    ensures var outputs := Merged(scans);
      exists k :: 0 <= k < |outputs| && outputs[k].origin == name &&
        forall i :: 0 <= i < |outputs| && outputs[i].origin == name ==> i == k
  {
    hide Merged, All, Conflicts, Represented, PairwiseDifferent, HasAlike, NamedAfter;
    var all, outputs := All(scans), Merged(scans);
    ConflictsReportedIff(scans, name);
    MergeIsPartition(scans);
    var v :| v in all && v.service.name == name;
    var k := Representative(scans, v);
    forall i | 0 <= i < |outputs| && outputs[i].origin == name ensures i == k {
      assert Genuine(outputs[i], all);
      var w :| w in all && IsCopy(outputs[i], w);
      assert Alike(outputs[i].service, outputs[k].service);
    }
  }

  // ----- names

  ghost predicate DistinctNames(outputs: seq<Output>) {
    forall i, j :: 0 <= i < j < |outputs| ==> outputs[i].service.name != outputs[j].service.name
  }

  /** No name that is kept as it is has already been handed to a renamed service. */
  ghost predicate NoClash(names: seq<string>, all: seq<Variant>) {
    forall i :: 0 <= i < |names| && |Unique(all, names[i])| == 1 ==>
      names[i] !in NamesUsed(MergeNames(names[..i], all))
  }

  lemma {:induction false} NewNamesDistinct(unique: seq<Variant>, name: string, used: set<string>)
    ensures NoRepeats(NewNames(unique, name, used))
    ensures Elements(NewNames(unique, name, used)) !! used
  {
    if unique != [] {
      var before := NewNames(unique[..|unique| - 1], name, used);
      NewNamesDistinct(unique[..|unique| - 1], name, used);
      assert forall i :: 0 <= i < |before| ==> before[i] in Elements(before);
    }
  }

  lemma RenamesAreDistinct(unique: seq<Variant>, name: string, used: set<string>)
    requires |unique| != 1
    ensures DistinctNames(MergeName(unique, name, used))
    ensures forall o :: o in MergeName(unique, name, used) ==> o.service.name !in used
  {
    var names, more := NewNames(unique, name, used), MergeName(unique, name, used);
    NewNamesDistinct(unique, name, used);
    forall o | o in more ensures o.service.name !in used {
      var i :| 0 <= i < |more| && more[i] == o;
      assert names[i] in Elements(names);
    }
  }

  lemma DistinctConcat(xs: seq<Output>, ys: seq<Output>)
    ensures DistinctNames(xs + ys) <==>
            DistinctNames(xs) && DistinctNames(ys) && forall y :: y in ys ==> y.service.name !in NamesUsed(xs)
  {
    var all := xs + ys;
    if DistinctNames(all) {
      assert forall i :: 0 <= i < |xs| ==> xs[i] == all[i];
      assert forall i :: 0 <= i < |ys| ==> ys[i] == all[|xs| + i];
      forall y | y in ys ensures y.service.name !in NamesUsed(xs) {
        var j :| 0 <= j < |ys| && ys[j] == y;
        forall x | x in xs ensures x.service.name != y.service.name {
          var i :| 0 <= i < |xs| && xs[i] == x;
          assert all[i].service.name != all[|xs| + j].service.name;
        }
      }
    } else {
      var i, j :| 0 <= i < j < |all| && all[i].service.name == all[j].service.name;
      if i < |xs| <= j {
        assert ys[j - |xs|] in ys && xs[i] in xs;
      }
    }
  }

  lemma NoClashNext(names: seq<string>, all: seq<Variant>, name: string)
    ensures NoClash(names + [name], all) <==>
      NoClash(names, all) && (|Unique(all, name)| == 1 ==> name !in NamesUsed(MergeNames(names, all)))
  {
    var more := names + [name];
    assert more[..|names|] == names;
    assert forall i :: 0 <= i < |names| ==> more[..i] == names[..i] && more[i] == names[i];
    assert more[|names|] == name;
    if NoClash(more, all) {
      forall i | 0 <= i < |names| && |Unique(all, names[i])| == 1
        ensures names[i] !in NamesUsed(MergeNames(names[..i], all)) {
        assert more[i] !in NamesUsed(MergeNames(more[..i], all));
      }
    }
  }

  lemma MergeNameDistinct(all: seq<Variant>, name: string, outputs: seq<Output>)
    requires name in Names(all)
    ensures var used := NamesUsed(outputs); var more := MergeName(Unique(all, name), name, used);
      && DistinctNames(more)
      && ((forall o :: o in more ==> o.service.name !in used) <==> (|Unique(all, name)| == 1 ==> name !in used))
  {
    var unique, used := Unique(all, name), NamesUsed(outputs);
    UniqueOf(all, name);
    if |unique| == 1 {
      assert unique[0] in unique && unique[0].service.name == name;
      assert MergeName(unique, name, used)[0] in MergeName(unique, name, used);
    } else {
      RenamesAreDistinct(unique, name, used);
    }
  }

  lemma NameAdded(all: seq<Variant>, name: string, outputs: seq<Output>)
    requires name in Names(all)
    ensures DistinctNames(outputs + MergeName(Unique(all, name), name, NamesUsed(outputs))) <==>
            DistinctNames(outputs) && (|Unique(all, name)| == 1 ==> name !in NamesUsed(outputs))
  {
    MergeNameDistinct(all, name, outputs);
    DistinctConcat(outputs, MergeName(Unique(all, name), name, NamesUsed(outputs)));
  }

  ghost predicate DistinctWhenClashFree(names: seq<string>, all: seq<Variant>) {
    (forall n :: n in names ==> n in Names(all)) ==> (DistinctNames(MergeNames(names, all)) <==> NoClash(names, all))
  }

  lemma DistinctStep(names: seq<string>, all: seq<Variant>, name: string)
    ensures DistinctWhenClashFree(names, all) ==> DistinctWhenClashFree(names + [name], all)
  {
    if forall n :: n in names + [name] ==> n in Names(all) {
      assert name in names + [name] && forall n :: n in names ==> n in names + [name];
      NameAdded(all, name, MergeNames(names, all));
      NoClashNext(names, all, name);
      MergeNamesNext(names, all, name);
    }
  }

  lemma DistinctIffNoClash(names: seq<string>, all: seq<Variant>)
    requires forall n :: n in names ==> n in Names(all)
    ensures DistinctNames(MergeNames(names, all)) <==> NoClash(names, all)
  {
    forall xs, x ensures DistinctWhenClashFree(xs, all) ==> DistinctWhenClashFree(xs + [x], all) {
      DistinctStep(xs, all, x);
    }
    NamesOneByOne(names, xs => DistinctWhenClashFree(xs, all));
  }

  /** The merge repeats a name exactly when a service that keeps its name finds that name already
      given to a rename. Which names those are is the subject of module `Renames`. */
  lemma DistinctIffNothingTaken(scans: seq<ScanResult>)
    ensures DistinctNames(Merged(scans)) <==> NoClash(Text.Sorted(Names(All(scans))), All(scans))
  {
    SortedNames(All(scans));
    DistinctIffNoClash(Text.Sorted(Names(All(scans))), All(scans));
  }

  lemma PlainIsFree(names: seq<string>, all: seq<Variant>, plain: string)
    requires NoRepeats(names) && plain !in names && !Text.Contains(plain, "-from-")
    ensures plain !in NamesUsed(MergeNames(names, all))
  {
    MergeNamesPartition(names, all);
    forall o | o in MergeNames(names, all) ensures o.service.name != plain {
      assert Genuine(o, all);
      PlainIsNoRename(o.service.name, o.origin, plain);
    }
  }

  /** When no host uses `-from-` in a name of its own, the merged names are distinct. */
  lemma PlainNamesStayDistinct(scans: seq<ScanResult>)
    requires forall n :: n in Names(All(scans)) ==> !Text.Contains(n, "-from-")
    ensures DistinctNames(Merged(scans))
  {
    var all := All(scans);
    var names := Text.Sorted(Names(all));
    SortedNames(all);
    forall i | 0 <= i < |names| ensures names[i] !in NamesUsed(MergeNames(names[..i], all)) {
      PlainIsFree(names[..i], all, names[i]);
    }
    DistinctIffNothingTaken(scans);
  }

  lemma PlainIsNoRename(name: string, origin: string, plain: string)
    requires NamedAfter(name, origin) && origin != plain && !Text.Contains(plain, "-from-")
    ensures name != plain
  {
    if name != origin {
      var tail := name[|origin + "-from-"|..];
      assert name == origin + "-from-" + tail;
      Text.ContainsInfix(origin, "-from-", tail);
    }
  }

  // ----- a clash

  function Plain(name: string, command: string): Service {
    Service(name, command, [], None, None, None, None)
  }

  const CLASHING: seq<ScanResult> := [
    ScanResult(Host(Codex, "~/.codex/config.toml"), [Plain("a", "x")]),
    ScanResult(Host(Claude, "~/.claude.json"), [Plain("a", "y"), Plain("a-from-codex", "z")])
  ]

  lemma SortedPair(a: string, b: string)
    requires Text.Before(a, b)
    ensures Text.Sorted({a, b}) == [a, b]
  {
    Text.BeforeTrichotomy(a, b);
    assert Text.Least(a, {a, b}) && Text.Least(b, {b});
    Text.LeastUnique(a, Text.LeastOf({a, b}), {a, b});
    Text.LeastUnique(b, Text.LeastOf({b}), {b});
    assert {a, b} - {a} == {b} && {b} - {b} == {};
    assert Text.Sorted({b}) == [b] + Text.Sorted({});
    assert Text.Sorted({a, b}) == [a] + Text.Sorted({b});
  }

  const FIRST := Variant(Host(Codex, "~/.codex/config.toml"), Plain("a", "x"))
  const SECOND := Variant(Host(Claude, "~/.claude.json"), Plain("a", "y"))
  const THIRD := Variant(Host(Claude, "~/.claude.json"), Plain("a-from-codex", "z"))

  lemma ClashingVariants()
    ensures All(CLASHING) == [FIRST, SECOND, THIRD]
  {
    assert CLASHING[..1][..0] == [];
    assert All(CLASHING[..0]) == [];
    assert All(CLASHING[..1]) == [FIRST];
  }

  lemma VariantsNext(all: seq<Variant>, v: Variant, name: string)
    ensures VariantsOf(all + [v], name) == VariantsOf(all, name) + if v.service.name == name then [v] else []
  {
    assert (all + [v])[..|all|] == all;
  }

  lemma DistinctOne(v: Variant)
    ensures Distinct([v]) == [v]
  {
    DistinctNext([], v);
    assert [] + [v] == [v];
  }

  lemma ClashingVariantsOf(name: string)
    ensures VariantsOf(All(CLASHING), name) ==
      (if name == "a" then [FIRST, SECOND] else []) + if name == "a-from-codex" then [THIRD] else []
  {
    ClashingVariants();
    assert |"a-from-codex"| != |"a"|;
    VariantsNext([], FIRST, name);
    VariantsNext([FIRST], SECOND, name);
    VariantsNext([FIRST, SECOND], THIRD, name);
    assert [] + [FIRST] == [FIRST] && [FIRST] + [SECOND] == [FIRST, SECOND];
    assert [FIRST, SECOND] + [THIRD] == All(CLASHING);
  }

  lemma ClashingUnique()
    ensures Unique(All(CLASHING), "a") == [FIRST, SECOND]
    ensures Unique(All(CLASHING), "a-from-codex") == [THIRD]
  {
    ClashingVariantsOf("a");
    ClashingVariantsOf("a-from-codex");
    assert |"a-from-codex"| != |"a"| && "x" != "y";
    DistinctOne(FIRST);
    DistinctOne(THIRD);
    DistinctNext([FIRST], SECOND);
    assert [FIRST] + [SECOND] == [FIRST, SECOND];
    assert VariantsOf(All(CLASHING), "a") == [FIRST, SECOND];
    assert VariantsOf(All(CLASHING), "a-from-codex") == [THIRD];
  }

  lemma ClashingRename()
    ensures "a-from-codex" in NamesUsed(MergeNames(["a"], All(CLASHING)))
  {
    ClashingUnique();
    MergeNamesNext([], All(CLASHING), "a");
    assert [] + ["a"] == ["a"] && NamesUsed([]) == {};
    var more := MergeName([FIRST, SECOND], "a", {});
    NewNamesNext([], FIRST, "a", {});
    NewNamesNext([FIRST], SECOND, "a", {});
    assert [] + [FIRST] == [FIRST] && [FIRST] + [SECOND] == [FIRST, SECOND];
    assert NewNames([FIRST, SECOND], "a", {})[0] == Candidate("a", Codex) == "a-from-codex";
    assert more[0].service.name == "a-from-codex" && more[0] in more;
    assert more[0] in MergeNames(["a"], All(CLASHING));
  }

  /** A host that already has a service called like the rename of another one keeps it, and the
      merge ends with two different services of the same name. */
  lemma RenameCanClash()
    ensures !DistinctNames(Merged(CLASHING))
  {
    var all, a, b := All(CLASHING), "a", "a-from-codex";
    ClashingVariants();
    assert Names(all) == {a, b} by { assert all[0] in all && all[2] in all; }
    assert b[0] == a[0] && a[1..] == [] && b[1..] != [];
    assert Text.Before(a, b);
    SortedPair(a, b);
    ClashingRename();
    ClashingUnique();
    assert [a, b][..1] == [a] && [a, b][1] == b;
    assert !NoClash([a, b], all);
    DistinctIffNothingTaken(CLASHING);
  }

  // ----- merging again

  function Found(all: seq<Variant>): seq<Service> {
    seq(|all|, i requires 0 <= i < |all| => all[i].service)
  }

  ghost predicate AllDifferentNames(all: seq<Variant>) {
    forall i, j :: 0 <= i < j < |all| ==> all[i].service.name != all[j].service.name
  }

  ghost predicate DifferentNames(services: seq<Service>) {
    forall i, j :: 0 <= i < j < |services| ==> services[i].name != services[j].name
  }

  lemma {:induction false} OnlyVariant(all: seq<Variant>, i: nat)
    requires i < |all| && AllDifferentNames(all)
    ensures VariantsOf(all, all[i].service.name) == [all[i]]
  {
    var init, name := all[..|all| - 1], all[i].service.name;
    if i < |init| {
      OnlyVariant(init, i);
    } else {
      assert name !in Names(init) by {
        forall v | v in init ensures v.service.name != name { }
      }
      AbsentName(init, name);
    }
  }

  lemma OnlyUnique(all: seq<Variant>, i: nat)
    requires i < |all| && AllDifferentNames(all)
    ensures Unique(all, all[i].service.name) == [all[i]]
  {
    OnlyVariant(all, i);
    DistinctOne(all[i]);
  }

  /** Everything found under these names is kept as it was. */
  ghost predicate Kept(names: seq<string>, all: seq<Variant>, outputs: seq<Output>) {
    && (forall o :: o in outputs ==> o.service.name in names && o.service in Found(all))
    && (forall i :: 0 <= i < |all| && all[i].service.name in names ==> all[i].service in Services(outputs))
  }

  lemma KeptNext(names: seq<string>, all: seq<Variant>, outputs: seq<Output>, k: nat)
    requires Kept(names, all, outputs) && k < |all| && AllDifferentNames(all)
    ensures var name := all[k].service.name; Kept(names + [name], all, outputs + [Output(name, all[k].service)])
  {
    var more := [Output(all[k].service.name, all[k].service)];
    assert Found(all)[k] == all[k].service;
    ServicesConcat(outputs, more);
    assert Services(more)[0] == all[k].service;
  }

  lemma KeptStep(names: seq<string>, all: seq<Variant>, name: string)
    requires AllDifferentNames(all) && name in Names(all)
    requires ConflictsIn(names, all) == [] && Kept(names, all, MergeNames(names, all))
    ensures ConflictsIn(names + [name], all) == [] && Kept(names + [name], all, MergeNames(names + [name], all))
  {
    var v :| v in all && v.service.name == name;
    var k :| 0 <= k < |all| && all[k] == v;
    OnlyUnique(all, k);
    KeptNext(names, all, MergeNames(names, all), k);
    MergeNamesNext(names, all, name);
    ConflictsNext(names, all, name);
  }

  ghost predicate KeptUnder(names: seq<string>, all: seq<Variant>) {
    (forall n :: n in names ==> n in Names(all)) ==>
      ConflictsIn(names, all) == [] && Kept(names, all, MergeNames(names, all))
  }

  lemma KeptAsFound(names: seq<string>, all: seq<Variant>)
    requires AllDifferentNames(all) && forall n :: n in names ==> n in Names(all)
    ensures ConflictsIn(names, all) == [] && Kept(names, all, MergeNames(names, all))
  {
    forall xs, x ensures KeptUnder(xs, all) ==> KeptUnder(xs + [x], all) {
      assert x in xs + [x] && forall n :: n in xs ==> n in xs + [x];
      if KeptUnder(xs, all) && forall n :: n in xs + [x] ==> n in Names(all) { KeptStep(xs, all, x); }
    }
    NamesOneByOne(names, xs => KeptUnder(xs, all));
  }

  lemma {:induction false} CountOnce(xs: seq<Service>, x: Service)
    requires DifferentNames(xs)
    ensures multiset(xs)[x] == if x in xs then 1 else 0
  {
    if xs != [] {
      var init, last := xs[..|xs| - 1], xs[|xs| - 1];
      assert xs == init + [last];
      CountOnce(init, x);
    }
  }

  lemma SameElements(xs: seq<Service>, ys: seq<Service>)
    requires DifferentNames(xs) && DifferentNames(ys)
    requires forall x :: x in xs <==> x in ys
    ensures multiset(xs) == multiset(ys)
  {
    forall x: Service ensures multiset(xs)[x] == multiset(ys)[x] {
      CountOnce(xs, x);
      CountOnce(ys, x);
    }
  }

  lemma KeptNamesDiffer(names: seq<string>, all: seq<Variant>)
    requires AllDifferentNames(all) && NoRepeats(names) && forall n :: n in names ==> n in Names(all)
    ensures DistinctNames(MergeNames(names, all))
  {
    forall i | 0 <= i < |names| ensures names[i] !in NamesUsed(MergeNames(names[..i], all)) {
      KeptAsFound(names[..i], all);
    }
    DistinctIffNoClash(names, all);
  }

  lemma KeptElements(names: seq<string>, all: seq<Variant>, outputs: seq<Output>, x: Service)
    requires Kept(names, all, outputs) && forall n :: n in Names(all) ==> n in names
    ensures x in Services(outputs) <==> x in Found(all)
  {
    if x in Services(outputs) {
      var i :| 0 <= i < |outputs| && Services(outputs)[i] == x;
      assert outputs[i] in outputs;
    }
    if x in Found(all) {
      var i :| 0 <= i < |all| && Found(all)[i] == x;
      assert all[i] in all;
    }
  }

  /** Merging services whose names already differ changes no service, adds and drops none, and
      reports no conflict, whichever hosts they come from. */
  lemma MergeKeepsDistinctServices(scans: seq<ScanResult>)
    requires AllDifferentNames(All(scans))
    ensures multiset(Services(Merged(scans))) == multiset(Found(All(scans)))
    ensures Conflicts(scans) == []
  {
    var all := All(scans);
    var names := Text.Sorted(Names(all));
    SortedNames(all);
    KeptAsFound(names, all);
    KeptNamesDiffer(names, all);
    var outputs := MergeNames(names, all);
    forall x ensures x in Services(outputs) <==> x in Found(all) { KeptElements(names, all, outputs, x); }
    SameElements(Services(outputs), Found(all));
  }

  lemma TwiceCounted(ys: seq<Service>, i: nat, j: nat)
    requires i < j < |ys| && ys[i] == ys[j]
    ensures multiset(ys)[ys[i]] >= 2
  {
    assert ys == ys[..i] + [ys[i]] + ys[i + 1..j] + [ys[j]] + ys[j + 1..];
  }

  lemma DifferentAfterPermutation(xs: seq<Service>, ys: seq<Service>)
    requires multiset(xs) == multiset(ys) && DifferentNames(xs)
    ensures DifferentNames(ys)
  {
    forall i, j | 0 <= i < j < |ys| ensures ys[i].name != ys[j].name {
      assert ys[i] in multiset(ys) && ys[j] in multiset(ys);
      if ys[i] == ys[j] {
        CountOnce(xs, ys[i]);
        TwiceCounted(ys, i, j);
      }
    }
  }

  /** Merging is idempotent: when the merged names are distinct, merging the outcome once more,
      spread over hosts in any way and order, gives the same services and no conflict. */
  lemma MergeIsIdempotent(scans: seq<ScanResult>, again: seq<ScanResult>)
    requires DistinctNames(Merged(scans))
    requires multiset(Found(All(again))) == multiset(Services(Merged(scans)))
    ensures multiset(Services(Merged(again))) == multiset(Services(Merged(scans)))
    ensures Conflicts(again) == []
  {
    var found := Found(All(again));
    DifferentAfterPermutation(Services(Merged(scans)), found);
    assert forall i :: 0 <= i < |found| ==> found[i] == All(again)[i].service;
    MergeKeepsDistinctServices(again);
  }
}
