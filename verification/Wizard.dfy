/** The setup wizard's list of services, and which scanned services a selection in it keeps. */
module Wizard {
  import opened Wrappers
  import opened Scan
  import Merge
  import Origins
  import Text

  /** The source is the client an entry is shown under; there is none for a running process. */
  datatype ServiceEntry = ServiceEntry(service: Service, source: Option<Host>, selected: bool)

  /** One ticked entry for every service, under the client that has the first one of its key. */
  ghost predicate Lists(entries: seq<ServiceEntry>, services: seq<Service>, all: seq<Variant>) {
    && |entries| == |services|
    && forall i :: 0 <= i < |entries| ==>
         entries[i] == ServiceEntry(services[i], Origins.FirstWith(all, Origins.KeyOf(services[i])), true)
  }

  method EntriesFor(services: seq<Service>, index: map<string, Host>, ghost all: seq<Variant>)
    returns (entries: seq<ServiceEntry>)
    requires Origins.Indexes(index, all)
    ensures Lists(entries, services, all)
  {
    hide Origins.FirstWith, Origins.KeyOf;
    entries := [];
    var i := 0;
    while i < |services|
      invariant 0 <= i <= |services| && Lists(entries, services[..i], all)
    {
      var key := Origins.ServiceKey(services[i]);
      entries := entries + [ServiceEntry(services[i], if key in index then Some(index[key]) else None, true)];
      i := i + 1;
    }
    assert services[..i] == services;
  }

  /** `build_services_from_scans`: one ticked entry per merged service. */
  method BuildServices(scans: seq<ScanResult>) returns (entries: seq<ServiceEntry>)
    ensures Lists(entries, Services(Merged(scans)), All(scans))
  {
    var services, conflicts := MergeServices(scans);
    var index := Origins.OriginIndex(scans);
    entries := EntriesFor(services, index, All(scans));
  }

  /** No entry for a scanned service is shown as a running process: each has a client, the first
      that was found with a service of its key. */
  lemma EntriesHaveClients(scans: seq<ScanResult>, entries: seq<ServiceEntry>, k: nat)
    requires Lists(entries, Services(Merged(scans)), All(scans)) && k < |entries|
    ensures var all := All(scans);
      exists i: nat :: Origins.IsFirstWith(all, Origins.KeyOf(entries[k].service), i) &&
                       entries[k].source == Some(all[i].host)
  {
    hide Origins.FirstWith, Origins.KeyOf, Origins.IsFirstWith, Merged, All;
    assert Services(Merged(scans))[k] == Merged(scans)[k].service;
    Origins.EveryServiceHasAnOrigin(scans, Merged(scans)[k]);
  }

  /** `ServiceShapeKey`: no working directory, and no difference between an empty environment
      and none. */
  datatype ShapeKey = ShapeKey(command: string, args: seq<string>, socket: Option<string>, env: map<string, string>)

  function Shape(svc: Service): ShapeKey {
    ShapeKey(svc.command, svc.args, svc.socket, if svc.env.Some? then svc.env.value else map[])
  }

  /** Two services run the same command with the same arguments and variables on the same socket;
      where they run, and whether no variables or an empty table of them is given, does not count. */
  predicate SameShape(a: Service, b: Service) {
    && a.command == b.command && a.args == b.args && a.socket == b.socket
    && (a.env == b.env || (NoVariables(a.env) && NoVariables(b.env)))
  }

  predicate NoVariables(env: Option<map<string, string>>) {
    env == None || env == Some(map[])
  }

  lemma ShapeIff(a: Service, b: Service)
    ensures Shape(a) == Shape(b) <==> SameShape(a, b)
  {
  }

  datatype Filter = Filter(exact: set<(string, ShapeKey)>, conflictShapes: set<ShapeKey>)

  /** `matches` */
  predicate Matches(f: Filter, svc: Service) {
    (svc.name, Shape(svc)) in f.exact || Shape(svc) in f.conflictShapes
  }

  /** The ticked entry speaks for this service. */
  predicate SpeaksFor(e: ServiceEntry, svc: Service) {
    && e.selected && SameShape(e.service, svc)
    && (e.service.name == svc.name || Text.Contains(e.service.name, "-from-"))
  }

  ghost predicate Selected(entries: seq<ServiceEntry>, svc: Service) {
    exists e :: e in entries && SpeaksFor(e, svc)
  }

  method Occurs(s: string, sub: string) returns (found: bool)
    ensures found == Text.Contains(s, sub)
  {
    found := false;
    var i := 0;
    while i <= |s|
      invariant 0 <= i <= |s| + 1
      invariant found == exists k :: 0 <= k < i && Text.OccursAt(s, sub, k)
    {
      if Text.OccursAt(s, sub, i) { found := true; }
      i := i + 1;
    }
  }

  lemma SelectedNext(entries: seq<ServiceEntry>, e: ServiceEntry, svc: Service)
    ensures Selected(entries + [e], svc) <==> Selected(entries, svc) || SpeaksFor(e, svc)
  {
    if SpeaksFor(e, svc) { assert e in entries + [e]; }
    if Selected(entries, svc) {
      var x :| x in entries && SpeaksFor(x, svc);
      assert x in entries + [e];
    }
  }

  /** `from_app`: the filter lets a service pass exactly when a ticked entry speaks for it. */
  method FromApp(entries: seq<ServiceEntry>) returns (f: Filter)
    ensures forall svc :: Matches(f, svc) <==> Selected(entries, svc)
  {
    f := Filter({}, {});
    var i := 0;
    while i < |entries|
      invariant 0 <= i <= |entries|
      invariant forall svc :: Matches(f, svc) <==> Selected(entries[..i], svc)
    {
      var e := entries[i];
      ghost var before := f;
      if e.selected {
        f := f.(exact := f.exact + {(e.service.name, Shape(e.service))});
        var renamed := Occurs(e.service.name, "-from-");
        if renamed { f := f.(conflictShapes := f.conflictShapes + {Shape(e.service)}); }
      }
      assert entries[..i + 1] == entries[..i] + [e];
      forall svc ensures Matches(f, svc) <==> Selected(entries[..i + 1], svc) {
        ShapeIff(e.service, svc);
        assert Matches(f, svc) <==> Matches(before, svc) || SpeaksFor(e, svc);
        SelectedNext(entries[..i], e, svc);
      }
      i := i + 1;
    }
    assert entries[..i] == entries;
  }

  /** Those services of one scan that pass, in order. */
  function Kept(services: seq<Service>, f: Filter): seq<Service> {
    if services == [] then []
    else
      Kept(services[..|services| - 1], f) +
      if Matches(f, services[|services| - 1]) then [services[|services| - 1]] else []
  }

  /** The `retain` in `selected_scans`. */
  method RetainSelected(services: seq<Service>, f: Filter) returns (kept: seq<Service>)
    ensures kept == Kept(services, f)
  {
    kept := [];
    var i := 0;
    while i < |services|
      invariant 0 <= i <= |services| && kept == Kept(services[..i], f)
    {
      assert services[..i + 1][..i] == services[..i];
      if Matches(f, services[i]) { kept := kept + [services[i]]; }
      i := i + 1;
    }
    assert services[..i] == services;
  }

  lemma {:induction false} EverythingKept(services: seq<Service>, f: Filter)
    requires forall s :: s in services ==> Matches(f, s)
    ensures Kept(services, f) == services
  {
    if services != [] {
      var init, last := services[..|services| - 1], services[|services| - 1];
      assert services == init + [last];
      EverythingKept(init, f);
    }
  }

  // ----- what a selection in the list does

  /** The list shows the merged services, some of them ticked. */
  ghost predicate Shows(entries: seq<ServiceEntry>, outputs: seq<Output>) {
    |entries| == |outputs| && forall i :: 0 <= i < |entries| ==> entries[i].service == outputs[i].service
  }

  /** The entry that stands for a scanned service in the list. */
  ghost predicate IsEntryOf(outputs: seq<Output>, i: nat, v: Variant) {
    i < |outputs| && Merge.Represents(outputs[i], v)
  }

  lemma RenameContains(name: string, origin: string)
    requires Merge.NamedAfter(name, origin) && name != origin
    ensures Text.Contains(name, "-from-")
  {
    var tail := name[|origin + "-from-"|..];
    assert name == origin + "-from-" + tail;
    Text.ContainsInfix(origin, "-from-", tail);
  }

  lemma EntryExists(scans: seq<ScanResult>, v: Variant) returns (i: nat)
    requires v in All(scans)
    ensures IsEntryOf(Merged(scans), i, v) && Genuine(Merged(scans)[i].service, v)
  {
    i := Merge.Representative(scans, v);
    ListedIsGenuine(Merged(scans)[i], v);
  }

  lemma ListedIsGenuine(o: Output, v: Variant)
    requires Merge.Represents(o, v) && Merge.NamedAfter(o.service.name, v.service.name)
    ensures Genuine(o.service, v)
  {
    if o.service.name != v.service.name { RenameContains(o.service.name, v.service.name); }
  }

  /** The listed service looks like the scanned one, and has its name or a rename. */
  predicate Genuine(listed: Service, v: Variant) {
    SameShape(listed, v.service) && (listed.name == v.service.name || Text.Contains(listed.name, "-from-"))
  }

  /** A ticked entry keeps every scanned service it stands for. */
  lemma TickedMeansKept(scans: seq<ScanResult>, entries: seq<ServiceEntry>, v: Variant)
    requires v in All(scans) && Shows(entries, Merged(scans))
    requires forall i: nat :: IsEntryOf(Merged(scans), i, v) ==> entries[i].selected
    ensures Selected(entries, v.service)
  {
    var i := EntryExists(scans, v);
    assert entries[i] in entries && SpeaksFor(entries[i], v.service);
  }

  /** With everything ticked nothing is dropped: filtering a scan returns it unchanged, renamed
      conflicts included. */
  lemma AllTickedKeepsEverything(scans: seq<ScanResult>, entries: seq<ServiceEntry>, f: Filter, k: nat)
    requires Shows(entries, Merged(scans)) && forall e :: e in entries ==> e.selected
    requires forall svc :: Matches(f, svc) <==> Selected(entries, svc)
    requires k < |scans|
    ensures Kept(scans[k].services, f) == scans[k].services
  {
    forall svc | svc in scans[k].services ensures Matches(f, svc) {
      Merge.ScannedIsFound(scans, k, svc);
      assert forall i :: 0 <= i < |entries| ==> entries[i] in entries;
      TickedMeansKept(scans, entries, Variant(scans[k].host, svc));
    }
    EverythingKept(scans[k].services, f);
  }

  /** A ticked entry other than the i-th speaks for this service. */
  ghost predicate SpokenForElsewhere(entries: seq<ServiceEntry>, i: nat, svc: Service) {
    exists j :: 0 <= j < |entries| && j != i && SpeaksFor(entries[j], svc)
  }

  lemma EntriesAreGenuine(scans: seq<ScanResult>, v: Variant, i: nat)
    requires IsEntryOf(Merged(scans), i, v)
    ensures Genuine(Merged(scans)[i].service, v)
  {
    Merge.MergeIsPartition(scans);
    assert Merged(scans)[i] in Merged(scans);
    ListedIsGenuine(Merged(scans)[i], v);
  }

  /** What decides whether a scanned service is kept: it is, exactly when its entry is ticked or
      some other ticked entry of the same shape has its name or a `-from-` in its own. */
  lemma TickIsHonouredIff(scans: seq<ScanResult>, entries: seq<ServiceEntry>, v: Variant, i: nat)
    requires Shows(entries, Merged(scans)) && IsEntryOf(Merged(scans), i, v)
    ensures Selected(entries, v.service) <==> entries[i].selected || SpokenForElsewhere(entries, i, v.service)
  {
    EntriesAreGenuine(scans, v, i);
    assert entries[i] in entries && (entries[i].selected ==> SpeaksFor(entries[i], v.service));
    if Selected(entries, v.service) {
      var e :| e in entries && SpeaksFor(e, v.service);
      var k :| 0 <= k < |entries| && entries[k] == e;
    }
  }

  /** No two entries of the list agree in everything the filter looks at. */
  ghost predicate ShapesApart(outputs: seq<Output>) {
    forall i, j :: 0 <= i < j < |outputs| ==> !SameShape(outputs[i].service, outputs[j].service)
  }

  /** When the entries differ in shape, the entry alone decides. */
  lemma TickDecides(scans: seq<ScanResult>, entries: seq<ServiceEntry>, v: Variant, i: nat)
    requires Shows(entries, Merged(scans)) && ShapesApart(Merged(scans)) && IsEntryOf(Merged(scans), i, v)
    ensures Selected(entries, v.service) <==> entries[i].selected
  {
    TickIsHonouredIff(scans, entries, v, i);
    if j :| 0 <= j < |entries| && j != i && SpeaksFor(entries[j], v.service) {
      assert SameShape(Merged(scans)[j].service, Merged(scans)[i].service);
    }
  }

  // ----- an unticked service that is kept

  const LOOKALIKE: seq<ScanResult> := [
    ScanResult(Host(Codex, "~/.codex/config.toml"), [Merge.Plain("a", "x"), Merge.Plain("b-from-x", "x")])
  ]

  const UNTICKED := Variant(Host(Codex, "~/.codex/config.toml"), Merge.Plain("a", "x"))
  const TICKED := Variant(Host(Codex, "~/.codex/config.toml"), Merge.Plain("b-from-x", "x"))

  /** The list with only the entries of this name ticked. */
  function OnlyTicked(outputs: seq<Output>, name: string): seq<ServiceEntry> {
    seq(|outputs|, i requires 0 <= i < |outputs| =>
        ServiceEntry(outputs[i].service, None, outputs[i].service.name == name))
  }

  lemma LookalikesStayAsTheyAre()
    ensures All(LOOKALIKE) == [UNTICKED, TICKED]
    ensures multiset(Services(Merged(LOOKALIKE))) == multiset{UNTICKED.service, TICKED.service}
  {
    assert LOOKALIKE[..0] == [] && All([]) == [];
    assert All(LOOKALIKE) == [UNTICKED, TICKED];
    assert |"a"| != |"b-from-x"|;
    Merge.MergeKeepsDistinctServices(LOOKALIKE);
    assert Merge.Found(All(LOOKALIKE)) == [UNTICKED.service, TICKED.service];
  }

  lemma ListedAt(outputs: seq<Output>, svc: Service) returns (i: nat)
    requires svc in multiset(Services(outputs))
    ensures i < |outputs| && outputs[i].service == svc
  {
    i :| 0 <= i < |outputs| && Services(outputs)[i] == svc;
  }

  /** Unticking is not enough: a service of one host, with its own entry unticked, is kept since
      another entry of the same shape is ticked and happens to have `-from-` in its name. */
  lemma UntickedCanBeKept() returns (i: nat)
    ensures var outputs := Merged(LOOKALIKE); var entries := OnlyTicked(outputs, "b-from-x");
      && UNTICKED in All(LOOKALIKE) && Shows(entries, outputs) && IsEntryOf(outputs, i, UNTICKED)
      && !entries[i].selected && Selected(entries, UNTICKED.service)
  {
    var outputs := Merged(LOOKALIKE);
    var entries := OnlyTicked(outputs, "b-from-x");
    LookalikesStayAsTheyAre();
    var j := ListedAt(outputs, TICKED.service);
    i := Merge.Representative(LOOKALIKE, UNTICKED);
    AfterA(outputs[i].service.name);
    RenameInfix();
    assert entries[j] in entries && SpeaksFor(entries[j], UNTICKED.service);
  }

  lemma AfterA(name: string)
    requires Merge.NamedAfter(name, "a")
    ensures name != "b-from-x"
  {
    assert name[0] == 'a' && "b-from-x"[0] == 'b';
  }

  lemma RenameInfix()
    ensures Text.Contains("b-from-x", "-from-")
  {
    assert "b" + "-from-" + "x" == "b-from-x";
    Text.ContainsInfix("b", "-from-", "x");
  }
}
