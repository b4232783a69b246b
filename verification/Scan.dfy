/** MCP services found in host configurations, and merging them under distinct names. */
module Scan {
  import opened Wrappers
  import Text

  datatype HostKind =
    Codex | Claude | ClaudeDesktop | Junie | Gemini | Cursor | VSCode | JetBrains | Custom | Unknown

  function Label(kind: HostKind): string {
    match kind
    case Codex => "codex"
    case Claude => "claude"
    case ClaudeDesktop => "claude-desktop"
    case Junie => "junie"
    case Gemini => "gemini"
    case Cursor => "cursor"
    case VSCode => "vscode"
    case JetBrains => "jetbrains"
    case Custom => "custom"
    case Unknown => "unknown"
  }

  datatype Host = Host(kind: HostKind, path: string)

  datatype Service = Service(
    name: string, command: string, args: seq<string>, cwd: Option<string>, socket: Option<string>,
    env: Option<map<string, string>>, enabled: Option<bool>)

  datatype ScanResult = ScanResult(host: Host, services: seq<Service>)

  datatype Variant = Variant(host: Host, service: Service)

  datatype Conflict = Conflict(name: string, variants: seq<Variant>)

  // ----- equivalence

  predicate EnvEqual(a: Option<map<string, string>>, b: Option<map<string, string>>) {
    match (a, b)
    case (None, None) => true
    case (Some(x), Some(y)) => x == y
    case _ => false
  }

  /** `services_equivalent`: neither the name nor the enabled flag matters. */
  predicate Equivalent(a: Service, b: Service) {
    && a.command == b.command && a.args == b.args && a.cwd == b.cwd
    && EnvEqual(a.env, b.env) && a.socket == b.socket
  }

  /** What makes two services the same: all that says how one is run and reached. */
  predicate Alike(a: Service, b: Service) {
    a.command == b.command && a.args == b.args && a.cwd == b.cwd && a.socket == b.socket && a.env == b.env
  }

  lemma EquivalentIffAlike(a: Service, b: Service)
    ensures Equivalent(a, b) <==> Alike(a, b)
  {
  }

  // ----- fresh names

  function Numbered(candidate: string, n: nat): string {
    candidate + "-" + Text.Decimal(n)
  }

  /** The candidate and its numbered forms below `n` are all taken. */
  ghost predicate TakenBelow(used: set<string>, candidate: string, n: nat) {
    candidate in used && forall j :: 2 <= j < n ==> Numbered(candidate, j) in used
  }

  lemma NumberedInjective(candidate: string, m: nat, n: nat)
    requires Numbered(candidate, m) == Numbered(candidate, n)
    ensures m == n
  {
    var k := |candidate| + 1;
    assert Numbered(candidate, m)[k..] == Text.Decimal(m) && Numbered(candidate, n)[k..] == Text.Decimal(n);
    Text.DecimalInjective(m, n);
  }

  /** Taken names are distinct, so there cannot be more of them than names in use. */
  lemma {:induction false} Pigeonhole(used: set<string>, candidate: string, n: nat)
    requires n >= 2 && TakenBelow(used, candidate, n)
    ensures n <= |used| + 1
  {
    if n > 2 {
      var last := Numbered(candidate, n - 1);
      forall j | 2 <= j < n - 1 ensures Numbered(candidate, j) in used - {last} {
        if Numbered(candidate, j) == last { NumberedInjective(candidate, j, n - 1); }
      }
      assert |last| > |candidate|;
      Pigeonhole(used - {last}, candidate, n - 1);
    } else {
      assert used != {};
    }
  }

  function FreshFrom(used: set<string>, candidate: string, counter: nat): (r: string)
    requires counter >= 2 && TakenBelow(used, candidate, counter)
    ensures r !in used
    decreases |used| + 1 - counter
  {
    Pigeonhole(used, candidate, counter);
    if Numbered(candidate, counter) !in used then Numbered(candidate, counter)
    else
      Pigeonhole(used, candidate, counter + 1);
      FreshFrom(used, candidate, counter + 1)
  }

  function Fresh(used: set<string>, candidate: string): (r: string)
    ensures r !in used
  {
    if candidate !in used then candidate else FreshFrom(used, candidate, 2)
  }

  lemma {:induction false} FreshFromExtends(used: set<string>, candidate: string, counter: nat)
    requires counter >= 2 && TakenBelow(used, candidate, counter)
    ensures Text.StartsWith(FreshFrom(used, candidate, counter), candidate)
    decreases |used| + 1 - counter
  {
    Pigeonhole(used, candidate, counter);
    if Numbered(candidate, counter) in used {
      Pigeonhole(used, candidate, counter + 1);
      FreshFromExtends(used, candidate, counter + 1);
    }
  }

  lemma FreshExtends(used: set<string>, candidate: string)
    ensures Text.StartsWith(Fresh(used, candidate), candidate)
  {
    if candidate in used { FreshFromExtends(used, candidate, 2); }
  }

  /** `ensure_unique`: finds a name nobody uses, the candidate itself or its first free numbered
      form, after at most |used| + 1 probes. */
  method EnsureUnique(used: set<string>, candidate: string) returns (name: string, probes: nat)
    ensures name == Fresh(used, candidate) && name !in used
    ensures probes <= |used| + 1
    ensures if probes == 1 then name == candidate
            else name == Numbered(candidate, probes) && TakenBelow(used, candidate, probes)
  {
    if candidate !in used { return candidate, 1; }
    var counter := 2;
    Pigeonhole(used, candidate, 2);
    while Numbered(candidate, counter) in used
      invariant counter >= 2 && TakenBelow(used, candidate, counter) && counter <= |used| + 1
      invariant FreshFrom(used, candidate, counter) == Fresh(used, candidate)
      decreases |used| + 1 - counter
    {
      Pigeonhole(used, candidate, counter + 1);
      counter := counter + 1;
    }
    return Numbered(candidate, counter), counter;
  }

  // ----- grouping

  function All(scans: seq<ScanResult>): seq<Variant> {
    if scans == [] then []
    else
      var last := scans[|scans| - 1];
      All(scans[..|scans| - 1]) +
      seq(|last.services|, i requires 0 <= i < |last.services| => Variant(last.host, last.services[i]))
  }

  function Names(all: seq<Variant>): set<string> {
    set v | v in all :: v.service.name
  }

  /** The services of one name, in the order they were found. */
  function VariantsOf(all: seq<Variant>, name: string): seq<Variant> {
    if all == [] then []
    else
      VariantsOf(all[..|all| - 1], name) +
      if all[|all| - 1].service.name == name then [all[|all| - 1]] else []
  }

  predicate Covers(vs: seq<Variant>, svc: Service) {
    exists i :: 0 <= i < |vs| && Equivalent(vs[i].service, svc)
  }

  /** The first variant of every equivalence class. */
  function Distinct(vs: seq<Variant>): seq<Variant> {
    if vs == [] then []
    else
      var before := Distinct(vs[..|vs| - 1]);
      if Covers(before, vs[|vs| - 1].service) then before else before + [vs[|vs| - 1]]
  }

  ghost predicate PairwiseDifferent(vs: seq<Variant>) {
    forall i, j :: 0 <= i < j < |vs| ==> !Alike(vs[i].service, vs[j].service)
  }

  lemma DistinctNext(vs: seq<Variant>, v: Variant)
    ensures Distinct(vs + [v]) == if Covers(Distinct(vs), v.service) then Distinct(vs) else Distinct(vs) + [v]
  {
    assert (vs + [v])[..|vs|] == vs;
  }

  /** `ds` holds one element of every class of `vs`. */
  ghost predicate OnePerClass(ds: seq<Variant>, vs: seq<Variant>) {
    && PairwiseDifferent(ds)
    && (forall v :: v in ds ==> v in vs)
    && (forall v :: v in vs ==> HasAlike(ds, v.service))
  }

  ghost predicate HasAlike(ds: seq<Variant>, svc: Service) {
    exists i :: 0 <= i < |ds| && Alike(ds[i].service, svc)
  }

  lemma CoversIffHasAlike(ds: seq<Variant>, svc: Service)
    ensures Covers(ds, svc) <==> HasAlike(ds, svc)
  {
    if HasAlike(ds, svc) {
      var i :| 0 <= i < |ds| && Alike(ds[i].service, svc);
      EquivalentIffAlike(ds[i].service, svc);
    }
    if Covers(ds, svc) {
      var i :| 0 <= i < |ds| && Equivalent(ds[i].service, svc);
      EquivalentIffAlike(ds[i].service, svc);
    }
  }

  lemma CoversMore(ds: seq<Variant>, d: Variant, svc: Service)
    ensures HasAlike(ds, svc) ==> HasAlike(ds + [d], svc)
    ensures Alike(d.service, svc) ==> HasAlike(ds + [d], svc)
  {
    assert (ds + [d])[|ds|] == d;
    if HasAlike(ds, svc) {
      var i :| 0 <= i < |ds| && Alike(ds[i].service, svc);
      assert (ds + [d])[i] == ds[i];
    }
  }

  lemma OnePerClassNext(ds: seq<Variant>, vs: seq<Variant>, v: Variant)
    requires OnePerClass(ds, vs)
    ensures OnePerClass(if Covers(ds, v.service) then ds else ds + [v], vs + [v])
  {
    CoversIffHasAlike(ds, v.service);
    if !Covers(ds, v.service) {
      forall x | x in vs + [v] ensures HasAlike(ds + [v], x.service) { CoversMore(ds, v, x.service); }
    }
  }

  lemma {:induction false} DistinctRepresents(vs: seq<Variant>)
    ensures OnePerClass(Distinct(vs), vs)
  {
    if vs != [] {
      var init, last := vs[..|vs| - 1], vs[|vs| - 1];
      assert init + [last] == vs;
      DistinctRepresents(init);
      DistinctNext(init, last);
      OnePerClassNext(Distinct(init), init, last);
    }
  }

  lemma {:induction false} VariantsOfName(all: seq<Variant>, name: string)
    ensures forall v :: v in VariantsOf(all, name) <==> v in all && v.service.name == name
  {
    if all != [] { VariantsOfName(all[..|all| - 1], name); }
  }

  function Unique(all: seq<Variant>, name: string): seq<Variant> {
    Distinct(VariantsOf(all, name))
  }

  lemma UniqueOf(all: seq<Variant>, name: string)
    ensures PairwiseDifferent(Unique(all, name))
    ensures forall v :: v in Unique(all, name) ==> v in all && v.service.name == name
    ensures forall v :: v in all && v.service.name == name ==> HasAlike(Unique(all, name), v.service)
    ensures name in Names(all) ==> Unique(all, name) != []
  {
    VariantsOfName(all, name);
    DistinctRepresents(VariantsOf(all, name));
  }

  // ----- the merge as a function

  function Candidate(name: string, kind: HostKind): string {
    name + "-from-" + Label(kind)
  }

  function Elements(names: seq<string>): set<string> {
    set n | n in names
  }

  /** The names given to the variants of a conflict, in order. */
  function NewNames(unique: seq<Variant>, name: string, used: set<string>): (names: seq<string>)
    ensures |names| == |unique|
  {
    if unique == [] then []
    else
      var before := NewNames(unique[..|unique| - 1], name, used);
      before + [Fresh(used + Elements(before), Candidate(name, unique[|unique| - 1].host.kind))]
  }

  /** A merged service, and the name it was found under (history). */
  datatype Output = Output(origin: string, service: Service)

  function NamesUsed(outputs: seq<Output>): set<string> {
    set o | o in outputs :: o.service.name
  }

  function MergeName(unique: seq<Variant>, name: string, used: set<string>): seq<Output> {
    if |unique| == 1 then [Output(name, unique[0].service)]
    else
      var names := NewNames(unique, name, used);
      seq(|unique|, i requires 0 <= i < |unique| => Output(name, unique[i].service.(name := names[i])))
  }

  function MergeNames(names: seq<string>, all: seq<Variant>): seq<Output> {
    if names == [] then []
    else
      var before, name := MergeNames(names[..|names| - 1], all), names[|names| - 1];
      before + MergeName(Unique(all, name), name, NamesUsed(before))
  }

  function ConflictsIn(names: seq<string>, all: seq<Variant>): seq<Conflict> {
    if names == [] then []
    else
      var before, name := ConflictsIn(names[..|names| - 1], all), names[|names| - 1];
      before + if |Unique(all, name)| == 1 then [] else [Conflict(name, Unique(all, name))]
  }

  function Services(outputs: seq<Output>): seq<Service> {
    seq(|outputs|, i requires 0 <= i < |outputs| => outputs[i].service)
  }

  ghost function Merged(scans: seq<ScanResult>): seq<Output> {
    MergeNames(Text.Sorted(Names(All(scans))), All(scans))
  }

  ghost function Conflicts(scans: seq<ScanResult>): seq<Conflict> {
    ConflictsIn(Text.Sorted(Names(All(scans))), All(scans))
  }

  // ----- the merge as it is programmed

  method GroupByName(scans: seq<ScanResult>) returns (byName: map<string, seq<Variant>>)
    ensures byName.Keys == Names(All(scans))
    ensures forall n :: n in byName ==> byName[n] == VariantsOf(All(scans), n)
  {
    byName := map[];
    ghost var seen: seq<Variant> := [];
    var i := 0;
    while i < |scans|
      invariant 0 <= i <= |scans| && seen == All(scans[..i])
      invariant Grouped(byName, seen)
    {
      var scan, j := scans[i], 0;
      ghost var before := seen;
      assert scans[..i + 1][..i] == scans[..i];
      while j < |scan.services|
        invariant 0 <= j <= |scan.services|
        invariant seen == before + seq(j, k requires 0 <= k < j => Variant(scan.host, scan.services[k]))
        invariant Grouped(byName, seen)
      {
        var v := Variant(scan.host, scan.services[j]);
        GroupedNext(byName, seen, v);
        byName := byName[v.service.name := (if v.service.name in byName then byName[v.service.name] else []) + [v]];
        seen := seen + [v];
        j := j + 1;
      }
      i := i + 1;
    }
    assert scans[..i] == scans;
  }

  ghost predicate Grouped(byName: map<string, seq<Variant>>, seen: seq<Variant>) {
    && byName.Keys == Names(seen)
    && forall n :: n in byName ==> byName[n] == VariantsOf(seen, n)
  }

  lemma {:induction false} AbsentName(seen: seq<Variant>, name: string)
    requires name !in Names(seen)
    ensures VariantsOf(seen, name) == []
  {
    if seen != [] {
      assert seen[|seen| - 1] in seen;
      AbsentName(seen[..|seen| - 1], name);
    }
  }

  lemma GroupedNext(byName: map<string, seq<Variant>>, seen: seq<Variant>, v: Variant)
    requires Grouped(byName, seen)
    ensures var name := v.service.name;
      Grouped(byName[name := (if name in byName then byName[name] else []) + [v]], seen + [v])
  {
    assert (seen + [v])[..|seen|] == seen;
    var name := v.service.name;
    if name !in byName { AbsentName(seen, name); }
    assert Names(seen + [v]) == Names(seen) + {name};
  }

  method Deduplicate(variants: seq<Variant>) returns (unique: seq<Variant>)
    ensures unique == Distinct(variants)
  {
    unique := [];
    var i := 0;
    while i < |variants|
      invariant 0 <= i <= |variants| && unique == Distinct(variants[..i])
    {
      assert variants[..i + 1][..i] == variants[..i];
      var known, j := false, 0;
      while j < |unique|
        invariant 0 <= j <= |unique|
        invariant known == exists k :: 0 <= k < j && Equivalent(unique[k].service, variants[i].service)
      {
        if Equivalent(unique[j].service, variants[i].service) { known := true; }
        j := j + 1;
      }
      if !known { unique := unique + [variants[i]]; }
      i := i + 1;
    }
    assert variants[..i] == variants;
  }

  lemma NewNamesNext(vs: seq<Variant>, v: Variant, name: string, used: set<string>)
    ensures var before := NewNames(vs, name, used);
      NewNames(vs + [v], name, used) ==
      before + [Fresh(used + Elements(before), Candidate(name, v.host.kind))]
  {
    assert (vs + [v])[..|vs|] == vs;
  }

  lemma ElementsSnoc(names: seq<string>, name: string)
    ensures Elements(names + [name]) == Elements(names) + {name}
  {
  }

  /** The services of a conflict under their new names. */
  function WithNames(unique: seq<Variant>, names: seq<string>): seq<Service>
    requires |unique| == |names|
  {
    seq(|unique|, i requires 0 <= i < |unique| => unique[i].service.(name := names[i]))
  }

  ghost predicate RenamedSoFar(
    unique: seq<Variant>, name: string, used: set<string>, renamed: seq<Service>, taken: set<string>) {
    var names := NewNames(unique, name, used);
    renamed == WithNames(unique, names) && taken == used + Elements(names)
  }

  lemma WithNamesNext(vs: seq<Variant>, v: Variant, names: seq<string>, name: string)
    requires |vs| == |names|
    ensures WithNames(vs + [v], names + [name]) == WithNames(vs, names) + [v.service.(name := name)]
  {
  }

  lemma RenamedNext(
    vs: seq<Variant>, v: Variant, name: string, used: set<string>, renamed: seq<Service>, taken: set<string>)
    requires RenamedSoFar(vs, name, used, renamed, taken)
    ensures var newName := Fresh(taken, Candidate(name, v.host.kind));
      RenamedSoFar(vs + [v], name, used, renamed + [v.service.(name := newName)], taken + {newName})
  {
    var names, newName := NewNames(vs, name, used), Fresh(taken, Candidate(name, v.host.kind));
    NewNamesNext(vs, v, name, used);
    ElementsSnoc(names, newName);
    WithNamesNext(vs, v, names, newName);
    assert used + Elements(names + [newName]) == taken + {newName};
  }

  method RenameNext(
    v: Variant, name: string, renamed: seq<Service>, taken: set<string>, ghost before: seq<Variant>,
    ghost used: set<string>)
    returns (more: seq<Service>, takenToo: set<string>)
    requires RenamedSoFar(before, name, used, renamed, taken)
    ensures RenamedSoFar(before + [v], name, used, more, takenToo)
  {
    hide RenamedSoFar;
    RenamedNext(before, v, name, used, renamed, taken);
    var newName, probes := EnsureUnique(taken, Candidate(name, v.host.kind));
    more, takenToo := renamed + [v.service.(name := newName)], taken + {newName};
  }

  /** Gives every variant of a conflict its own name. */
  method RenameAll(
    unique: seq<Variant>, name: string, used: set<string>) returns (renamed: seq<Service>, taken: set<string>)
    ensures renamed == WithNames(unique, NewNames(unique, name, used))
    ensures taken == used + Elements(NewNames(unique, name, used))
  {
    hide RenamedSoFar, NewNames, WithNames, Elements;
    renamed, taken := [], used;
    var i := 0;
    NothingRenamed(name, used);
    assert unique[..0] == [];
    while i < |unique|
      invariant 0 <= i <= |unique|
      invariant RenamedSoFar(unique[..i], name, used, renamed, taken)
    {
      assert unique[..i + 1] == unique[..i] + [unique[i]];
      renamed, taken := RenameNext(unique[i], name, renamed, taken, unique[..i], used);
      i := i + 1;
    }
    assert unique[..i] == unique;
    AllRenamed(unique, name, used, renamed, taken);
  }

  lemma NothingRenamed(name: string, used: set<string>)
    ensures RenamedSoFar([], name, used, [], used)
  {
  }

  lemma AllRenamed(unique: seq<Variant>, name: string, used: set<string>, renamed: seq<Service>, taken: set<string>)
    requires RenamedSoFar(unique, name, used, renamed, taken)
    ensures renamed == WithNames(unique, NewNames(unique, name, used))
    ensures taken == used + Elements(NewNames(unique, name, used))
  {
  }

  /** The services of one name: kept as they are, or reported and renamed. */
  method MergeOne(variants: seq<Variant>, name: string, ghost outputs: seq<Output>, used: set<string>)
    returns (services: seq<Service>, conflicts: seq<Conflict>, taken: set<string>)
    requires used == NamesUsed(outputs)
    requires forall v :: v in Distinct(variants) ==> v.service.name == name
    ensures var more := MergeName(Distinct(variants), name, used);
      services == Services(more) && taken == NamesUsed(outputs + more)
    ensures conflicts == if |Distinct(variants)| == 1 then [] else [Conflict(name, Distinct(variants))]
  {
    var unique := Deduplicate(variants);
    if |unique| == 1 {
      assert unique[0] in Distinct(variants);
      services, conflicts, taken := [unique[0].service], [], used + {name};
    } else {
      NamesOfRenamed(outputs, unique, name);
      services, taken := RenameAll(unique, name, used);
      conflicts := [Conflict(name, unique)];
    }
  }

  method FirstKey(keys: set<string>) returns (first: string)
    requires keys != {}
    ensures Text.Least(first, keys)
  {
    first :| first in keys;
    var seen := {first};
    while seen != keys
      invariant seen <= keys && Text.Least(first, seen)
      decreases |keys - seen|
    {
      var k :| k in keys - seen;
      Text.BeforeTrichotomy(k, first);
      if Text.Before(k, first) {
        forall y | y in seen && y != k ensures Text.Before(k, y) {
          if y != first { Text.BeforeTransitive(k, first, y); }
        }
        first := k;
      }
      assert keys - (seen + {k}) == (keys - seen) - {k};
      seen := seen + {k};
    }
  }

  lemma NamesOfRenamed(outputs: seq<Output>, unique: seq<Variant>, name: string)
    requires |unique| != 1
    ensures NamesUsed(outputs + MergeName(unique, name, NamesUsed(outputs))) ==
            NamesUsed(outputs) + Elements(NewNames(unique, name, NamesUsed(outputs)))
  {
    var more, names := MergeName(unique, name, NamesUsed(outputs)), NewNames(unique, name, NamesUsed(outputs));
    forall n | n in names ensures n in NamesUsed(outputs + more) {
      var i :| 0 <= i < |names| && names[i] == n;
      assert more[i].service.name == n && more[i] in outputs + more;
    }
  }

  ghost predicate MergedSoFar(
    done: seq<string>, all: seq<Variant>, outputs: seq<Output>, services: seq<Service>, conflicts: seq<Conflict>,
    used: set<string>)
  {
    && outputs == MergeNames(done, all) && services == Services(outputs)
    && conflicts == ConflictsIn(done, all) && used == NamesUsed(outputs)
  }

  lemma ServicesConcat(xs: seq<Output>, ys: seq<Output>)
    ensures Services(xs + ys) == Services(xs) + Services(ys)
  {
  }

  lemma MergeNamesNext(done: seq<string>, all: seq<Variant>, name: string)
    ensures var before := MergeNames(done, all);
      MergeNames(done + [name], all) == before + MergeName(Unique(all, name), name, NamesUsed(before))
  {
    assert (done + [name])[..|done|] == done;
  }

  lemma ConflictsNext(done: seq<string>, all: seq<Variant>, name: string)
    ensures ConflictsIn(done + [name], all) ==
      ConflictsIn(done, all) + if |Unique(all, name)| == 1 then [] else [Conflict(name, Unique(all, name))]
  {
    assert (done + [name])[..|done|] == done;
  }

  lemma MergedNext(
    done: seq<string>, all: seq<Variant>, outputs: seq<Output>, services: seq<Service>, conflicts: seq<Conflict>,
    used: set<string>, name: string)
    requires MergedSoFar(done, all, outputs, services, conflicts, used)
    ensures var unique := Unique(all, name); var more := MergeName(unique, name, used);
      MergedSoFar(done + [name], all, outputs + more, services + Services(more),
                  conflicts + (if |unique| == 1 then [] else [Conflict(name, unique)]), NamesUsed(outputs + more))
  {
    ConflictsNext(done, all, name);
    MergeNamesNext(done, all, name);
    ServicesConcat(outputs, MergeName(Unique(all, name), name, used));
  }

  ghost predicate RemainingNames(done: seq<string>, rest: set<string>, names: set<string>) {
    rest <= names && done + Text.Sorted(rest) == Text.Sorted(names)
  }

  lemma NextName(done: seq<string>, rest: set<string>, names: set<string>, name: string)
    requires RemainingNames(done, rest, names) && Text.Least(name, rest)
    ensures RemainingNames(done + [name], rest - {name}, names)
  {
    Text.LeastUnique(name, Text.LeastOf(rest), rest);
  }

  /** `merge_services` */
  method MergeServices(scans: seq<ScanResult>) returns (services: seq<Service>, conflicts: seq<Conflict>)
    ensures services == Services(Merged(scans))
    ensures conflicts == Conflicts(scans)
  {
    var byName := GroupByName(scans);
    services, conflicts := [], [];
    var used, rest := {}, byName.Keys;
    ghost var all, done, outputs := All(scans), [], [];
    while rest != {}
      invariant RemainingNames(done, rest, byName.Keys)
      invariant MergedSoFar(done, all, outputs, services, conflicts, used)
      decreases |rest|
    {
      var name := FirstKey(rest);
      NextName(done, rest, byName.Keys, name);
      MergedNext(done, all, outputs, services, conflicts, used, name);
      UniqueOf(all, name);
      ghost var more := MergeName(Unique(all, name), name, used);
      var found, reported;
      found, reported, used := MergeOne(byName[name], name, outputs, used);
      services, conflicts := services + found, conflicts + reported;
      rest, done, outputs := rest - {name}, done + [name], outputs + more;
    }
    assert Text.Sorted({}) == [] && done + [] == done;
  }
}
