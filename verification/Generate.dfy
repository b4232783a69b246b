/** The daemon's configuration and the clients' configurations, generated from one list of
    services. */
module Generate {
  import opened Wrappers
  import opened Scan
  import Merge
  import Renames

  /** `Path::join` on Unix: an absolute second part replaces the first. */
  function Join(dir: string, leaf: string): string {
    if leaf != [] && leaf[0] == '/' then leaf
    else if dir == [] || dir[|dir| - 1] == '/' then dir + leaf
    else dir + "/" + leaf
  }

  function SocketFor(svc: Service, dir: string): string {
    match svc.socket
    case Some(socket) => socket
    case None => Join(dir, svc.name + ".sock")
  }

  /** A service is reached over its own socket, or else over one in the directory that is named
      after it. */
  lemma SocketsAreNamedAfterServices(svc: Service, dir: string)
    ensures svc.socket.Some? ==> SocketFor(svc, dir) == svc.socket.value
    ensures svc.socket.None? && svc.name != [] && svc.name[0] != '/' && dir != [] ==>
      SocketFor(svc, dir) == dir + (if dir[|dir| - 1] == '/' then "" else "/") + svc.name + ".sock"
  {
    if svc.socket.None? && svc.name != [] {
      assert (svc.name + ".sock")[0] == svc.name[0];
      assert dir + "" + svc.name + ".sock" == dir + (svc.name + ".sock");
      assert dir + "/" + svc.name + ".sock" == dir + "/" + (svc.name + ".sock");
    }
  }

  datatype ServerConfig = ServerConfig(
    socket: string, cmd: string, args: seq<string>, cwd: Option<string>, env: Option<map<string, string>>,
    serviceName: string)

  datatype ClientServer = ClientServer(command: string, args: seq<string>, env: Option<map<string, string>>)

  function ConfigFor(svc: Service, dir: string): ServerConfig {
    ServerConfig(SocketFor(svc, dir), svc.command, svc.args, svc.cwd, svc.env, svc.name)
  }

  function ClientFor(svc: Service, dir: string, proxyCmd: string, proxyArgs: seq<string>): ClientServer {
    ClientServer(proxyCmd, proxyArgs + ["--socket", SocketFor(svc, dir)], svc.env)
  }

  /** The service that keeps this name: the last one that has it. */
  function LastNamed(services: seq<Service>, name: string): Option<Service> {
    if services == [] then None
    else if services[|services| - 1].name == name then Some(services[|services| - 1])
    else LastNamed(services[..|services| - 1], name)
  }

  /** It is one that no service after it has. */
  ghost predicate IsLastNamed(services: seq<Service>, name: string, i: nat) {
    i < |services| && services[i].name == name && forall j :: i < j < |services| ==> services[j].name != name
  }

  lemma {:induction false} LastNamedIsLast(services: seq<Service>, name: string)
    ensures LastNamed(services, name).None? <==> forall i :: 0 <= i < |services| ==> services[i].name != name
    ensures forall i: nat :: IsLastNamed(services, name, i) ==> LastNamed(services, name) == Some(services[i])
  {
    if services != [] {
      var init := services[..|services| - 1];
      LastNamedIsLast(init, name);
      assert forall i :: 0 <= i < |init| ==> init[i] == services[i];
      forall i: nat | IsLastNamed(services, name, i) ensures LastNamed(services, name) == Some(services[i]) {
        if i < |init| { assert IsLastNamed(init, name, i); }
      }
    }
  }

  ghost predicate HoldsLast<T>(entries: map<string, T>, services: seq<Service>, entry: Service -> T) {
    forall name :: (name in entries <==> LastNamed(services, name).Some?) &&
                   (name in entries ==> entries[name] == entry(LastNamed(services, name).value))
  }

  lemma LastNamedNext(services: seq<Service>, svc: Service, name: string)
    ensures LastNamed(services + [svc], name) == if svc.name == name then Some(svc) else LastNamed(services, name)
  {
    assert (services + [svc])[..|services|] == services;
  }

  lemma HoldsNext<T>(entries: map<string, T>, services: seq<Service>, svc: Service, entry: Service -> T)
    requires HoldsLast(entries, services, entry)
    ensures HoldsLast(entries[svc.name := entry(svc)], services + [svc], entry)
  {
    forall name
      ensures LastNamed(services + [svc], name) == if svc.name == name then Some(svc) else LastNamed(services, name)
    {
      LastNamedNext(services, svc, name);
    }
  }

  /** `build_daemon_config` */
  method BuildDaemonConfig(services: seq<Service>, dir: string) returns (servers: map<string, ServerConfig>)
    ensures HoldsLast(servers, services, svc => ConfigFor(svc, dir))
  {
    servers := map[];
    var i := 0;
    while i < |services|
      invariant 0 <= i <= |services|
      invariant HoldsLast(servers, services[..i], svc => ConfigFor(svc, dir))
    {
      HoldsNext(servers, services[..i], services[i], svc => ConfigFor(svc, dir));
      assert services[..i + 1] == services[..i] + [services[i]];
      servers := servers[services[i].name := ConfigFor(services[i], dir)];
      i := i + 1;
    }
    assert services[..i] == services;
  }

  /** `build_client_json` and `build_client_toml`, which differ only in how they are printed. */
  method BuildClientServers(services: seq<Service>, dir: string, proxyCmd: string, proxyArgs: seq<string>)
    returns (servers: map<string, ClientServer>)
    ensures HoldsLast(servers, services, svc => ClientFor(svc, dir, proxyCmd, proxyArgs))
  {
    servers := map[];
    var i := 0;
    while i < |services|
      invariant 0 <= i <= |services|
      invariant HoldsLast(servers, services[..i], svc => ClientFor(svc, dir, proxyCmd, proxyArgs))
    {
      HoldsNext(servers, services[..i], services[i], svc => ClientFor(svc, dir, proxyCmd, proxyArgs));
      assert services[..i + 1] == services[..i] + [services[i]];
      servers := servers[services[i].name := ClientFor(services[i], dir, proxyCmd, proxyArgs)];
      i := i + 1;
    }
    assert services[..i] == services;
  }

  // ----- what the two have to do with each other

  function NamesOf(services: seq<Service>): set<string> {
    set s | s in services :: s.name
  }

  lemma {:induction false} LastNamedIff(services: seq<Service>, name: string)
    ensures LastNamed(services, name).Some? <==> name in NamesOf(services)
    ensures LastNamed(services, name).Some? ==>
      LastNamed(services, name).value in services && LastNamed(services, name).value.name == name
  {
    if services != [] {
      LastNamedIff(services[..|services| - 1], name);
      assert services == services[..|services| - 1] + [services[|services| - 1]];
    }
  }

  lemma DifferentNext(services: seq<Service>, svc: Service)
    ensures Merge.DifferentNames(services + [svc]) <==> Merge.DifferentNames(services) && svc.name !in NamesOf(services)
  {
    var more := services + [svc];
    assert more[|services|] == svc && forall i :: 0 <= i < |services| ==> more[i] == services[i];
    if svc.name in NamesOf(services) {
      var s :| s in services && s.name == svc.name;
      var i :| 0 <= i < |services| && services[i] == s;
      assert more[i].name == more[|services|].name;
    }
    if !Merge.DifferentNames(services) {
      var i, j :| 0 <= i < j < |services| && services[i].name == services[j].name;
      assert more[i].name == more[j].name;
    }
  }

  lemma NamesNext(services: seq<Service>, svc: Service)
    ensures NamesOf(services + [svc]) == NamesOf(services) + {svc.name}
  {
  }

  lemma {:induction false} DistinctNamesCount(services: seq<Service>)
    ensures |NamesOf(services)| <= |services|
    ensures |NamesOf(services)| == |services| <==> Merge.DifferentNames(services)
  {
    if services != [] {
      var init, last := services[..|services| - 1], services[|services| - 1];
      assert services == init + [last];
      DistinctNamesCount(init);
      NamesNext(init, last);
      DifferentNext(init, last);
      assert last.name in NamesOf(init) ==> NamesOf(init) + {last.name} == NamesOf(init);
    }
  }

  /** Whatever services are given, every client entry connects to the socket that the daemon
      listens on for the service of that name, and no daemon entry is without a client entry. */
  lemma ClientsReachTheDaemon(
    services: seq<Service>, dir: string, proxyCmd: string, proxyArgs: seq<string>,
    daemon: map<string, ServerConfig>, clients: map<string, ClientServer>)
    requires HoldsLast(daemon, services, svc => ConfigFor(svc, dir))
    requires HoldsLast(clients, services, svc => ClientFor(svc, dir, proxyCmd, proxyArgs))
    ensures daemon.Keys == clients.Keys == NamesOf(services)
    ensures forall name :: name in clients ==>
      && clients[name].command == proxyCmd && clients[name].args == proxyArgs + ["--socket", daemon[name].socket]
      && clients[name].env == daemon[name].env && daemon[name].serviceName == name
  {
    forall name
      ensures LastNamed(services, name).Some? <==> name in NamesOf(services)
      ensures LastNamed(services, name).Some? ==> LastNamed(services, name).value.name == name
    {
      LastNamedIff(services, name);
    }
  }

  /** No service is lost on the way to the daemon exactly when their names differ. */
  lemma NothingLostIffDistinct(services: seq<Service>, dir: string, daemon: map<string, ServerConfig>)
    requires HoldsLast(daemon, services, svc => ConfigFor(svc, dir))
    ensures Merge.DifferentNames(services) <==> |daemon| == |services|
    ensures Merge.DifferentNames(services) ==>
      forall svc :: svc in services ==> svc.name in daemon && daemon[svc.name] == ConfigFor(svc, dir)
  {
    forall name ensures LastNamed(services, name).Some? <==> name in NamesOf(services) {
      LastNamedIff(services, name);
    }
    assert daemon.Keys == NamesOf(services);
    DistinctNamesCount(services);
    forall svc | svc in services && Merge.DifferentNames(services)
      ensures svc.name in daemon && daemon[svc.name] == ConfigFor(svc, dir)
    {
      LastNamedIff(services, svc.name);
    }
  }

  /** Some daemon entry under this service's name, or a `-from-` rename of it, runs it. */
  ghost predicate Serves(daemon: map<string, ServerConfig>, svc: Service) {
    exists name :: name in daemon && Merge.NamedAfter(name, svc.name) && Runs(daemon[name], svc)
  }

  predicate Runs(config: ServerConfig, svc: Service) {
    config.cmd == svc.command && config.args == svc.args && config.cwd == svc.cwd && config.env == svc.env
  }

  /** The daemon has an entry for every merged service exactly when no service that keeps its name
      is called like a rename, and then every scanned service is served: some entry has its
      command, arguments, directory and environment. */
  lemma EveryScannedServiceIsServed(scans: seq<ScanResult>, dir: string, daemon: map<string, ServerConfig>, v: Variant)
    requires HoldsLast(daemon, Services(Merged(scans)), svc => ConfigFor(svc, dir))
    requires v in All(scans)
    ensures |daemon| == |Merged(scans)| <==> Renames.NoneCalledLikeARename(All(scans))
    ensures Renames.NoneCalledLikeARename(All(scans)) ==> Serves(daemon, v.service)
  {
    hide All, Merged, Renames.NoneCalledLikeARename;
    var outputs := Merged(scans);
    Renames.MergedNamesDistinctIff(scans);
    assert Merge.DifferentNames(Services(outputs)) <==> Merge.DistinctNames(outputs) by {
      assert forall i :: 0 <= i < |outputs| ==> Services(outputs)[i] == outputs[i].service;
    }
    NothingLostIffDistinct(Services(outputs), dir, daemon);
    if Merge.DistinctNames(outputs) {
      var i := Merge.Representative(scans, v);
      assert Services(outputs)[i] == outputs[i].service;
      assert Runs(daemon[outputs[i].service.name], v.service);
    }
  }

  // ----- one file per kind of client

  datatype Group = Group(host: Host, scans: seq<ScanResult>)

  /** The scans of one kind, in order. */
  function OfKind(scans: seq<ScanResult>, kind: HostKind): seq<ScanResult> {
    if scans == [] then []
    else
      OfKind(scans[..|scans| - 1], kind) +
      if scans[|scans| - 1].host.kind == kind then [scans[|scans| - 1]] else []
  }

  ghost predicate OneGroupPerKind(groups: seq<Group>) {
    forall i, j :: 0 <= i < j < |groups| ==> groups[i].host.kind != groups[j].host.kind
  }

  /** The group holds the scans of its kind, and is headed by the first one's host. */
  ghost predicate Complete(g: Group, scans: seq<ScanResult>) {
    g.scans == OfKind(scans, g.host.kind) && g.scans != [] && g.scans[0].host == g.host
  }

  ghost predicate HasGroup(groups: seq<Group>, kind: HostKind) {
    exists i :: 0 <= i < |groups| && groups[i].host.kind == kind
  }

  ghost predicate GroupedByKind(groups: seq<Group>, scans: seq<ScanResult>) {
    && OneGroupPerKind(groups)
    && (forall i :: 0 <= i < |groups| ==> Complete(groups[i], scans))
    && (forall s :: s in scans ==> HasGroup(groups, s.host.kind))
  }

  lemma {:induction false} NoneOfKind(scans: seq<ScanResult>, kind: HostKind)
    requires forall s :: s in scans ==> s.host.kind != kind
    ensures OfKind(scans, kind) == []
  {
    if scans != [] {
      assert scans[|scans| - 1] in scans;
      NoneOfKind(scans[..|scans| - 1], kind);
    }
  }

  lemma OfKindNext(scans: seq<ScanResult>, scan: ScanResult, kind: HostKind)
    ensures OfKind(scans + [scan], kind) == OfKind(scans, kind) + if scan.host.kind == kind then [scan] else []
  {
    assert (scans + [scan])[..|scans|] == scans;
  }

  lemma JoinGroup(groups: seq<Group>, scans: seq<ScanResult>, scan: ScanResult, k: nat)
    requires GroupedByKind(groups, scans) && k < |groups| && groups[k].host.kind == scan.host.kind
    ensures GroupedByKind(groups[k := Group(groups[k].host, groups[k].scans + [scan])], scans + [scan])
  {
    var more := groups[k := Group(groups[k].host, groups[k].scans + [scan])];
    forall i | 0 <= i < |more| ensures Complete(more[i], scans + [scan]) {
      assert Complete(groups[i], scans);
      OfKindNext(scans, scan, groups[i].host.kind);
    }
    forall s | s in scans + [scan] ensures HasGroup(more, s.host.kind) {
      assert s in scans || s == scan;
      var i :| 0 <= i < |groups| && groups[i].host.kind == s.host.kind;
      assert more[i].host.kind == s.host.kind;
    }
  }

  lemma NewGroup(groups: seq<Group>, scans: seq<ScanResult>, scan: ScanResult)
    requires GroupedByKind(groups, scans) && !HasGroup(groups, scan.host.kind)
    ensures GroupedByKind(groups + [Group(scan.host, [scan])], scans + [scan])
  {
    var group := Group(scan.host, [scan]);
    var more := groups + [group];
    assert forall s :: s in scans ==> s.host.kind != scan.host.kind;
    NoneOfKind(scans, scan.host.kind);
    OfKindNext(scans, scan, scan.host.kind);
    forall i | 0 <= i < |more| ensures Complete(more[i], scans + [scan]) {
      if i < |groups| {
        assert Complete(groups[i], scans);
        OfKindNext(scans, scan, groups[i].host.kind);
      }
    }
    forall s | s in scans + [scan] ensures HasGroup(more, s.host.kind) {
      if s in scans {
        var i :| 0 <= i < |groups| && groups[i].host.kind == s.host.kind;
        assert more[i].host.kind == s.host.kind;
      } else {
        assert more[|groups|].host.kind == s.host.kind;
      }
    }
  }

  method FindGroup(groups: seq<Group>, kind: HostKind) returns (k: nat)
    ensures k <= |groups| && (k < |groups| ==> groups[k].host.kind == kind) &&
            (k == |groups| ==> !HasGroup(groups, kind))
  {
    k := 0;
    while k < |groups| && groups[k].host.kind != kind
      invariant 0 <= k <= |groups| && forall j :: 0 <= j < k ==> groups[j].host.kind != kind
    {
      k := k + 1;
    }
  }

  method AddToGroup(groups: seq<Group>, scan: ScanResult, ghost before: seq<ScanResult>) returns (more: seq<Group>)
    requires GroupedByKind(groups, before)
    ensures GroupedByKind(more, before + [scan])
  {
    var k := FindGroup(groups, scan.host.kind);
    if k < |groups| {
      JoinGroup(groups, before, scan, k);
      more := groups[k := Group(groups[k].host, groups[k].scans + [scan])];
    } else {
      NewGroup(groups, before, scan);
      more := groups + [Group(scan.host, [scan])];
    }
  }

  /** The grouping in `group_scans_by_kind`. */
  method GroupByKind(scans: seq<ScanResult>) returns (groups: seq<Group>)
    ensures GroupedByKind(groups, scans)
  {
    groups := [];
    var i := 0;
    while i < |scans|
      invariant 0 <= i <= |scans| && GroupedByKind(groups, scans[..i])
    {
      assert scans[..i + 1] == scans[..i] + [scans[i]];
      groups := AddToGroup(groups, scans[i], scans[..i]);
      i := i + 1;
    }
    assert scans[..i] == scans;
  }

  /** The merge of all scans of one kind, under the host of the first. */
  ghost predicate IsMergeOfKind(merged: ScanResult, scans: seq<ScanResult>) {
    var same := OfKind(scans, merged.host.kind);
    same != [] && same[0].host == merged.host && merged.services == Services(Merged(same))
  }

  ghost predicate HasKind(merged: seq<ScanResult>, kind: HostKind) {
    exists i :: 0 <= i < |merged| && merged[i].host.kind == kind
  }

  /** The map over the groups at the end of `group_scans_by_kind`. */
  method MergeGroup(g: Group, ghost scans: seq<ScanResult>) returns (merged: ScanResult)
    requires Complete(g, scans)
    ensures merged.host == g.host && IsMergeOfKind(merged, scans)
  {
    var services, conflicts := MergeServices(g.scans);
    merged := ScanResult(g.host, services);
  }

  /** One merge for every kind of client that was scanned, and no other. */
  ghost predicate MergedByKind(merged: seq<ScanResult>, scans: seq<ScanResult>) {
    && (forall i, j :: 0 <= i < j < |merged| ==> merged[i].host.kind != merged[j].host.kind)
    && (forall i :: 0 <= i < |merged| ==> IsMergeOfKind(merged[i], scans))
    && (forall s :: s in scans ==> HasKind(merged, s.host.kind))
  }

  lemma GroupsAreMerged(groups: seq<Group>, merged: seq<ScanResult>, scans: seq<ScanResult>)
    requires GroupedByKind(groups, scans) && |merged| == |groups|
    requires forall i :: 0 <= i < |merged| ==> merged[i].host == groups[i].host && IsMergeOfKind(merged[i], scans)
    ensures MergedByKind(merged, scans)
  {
    hide IsMergeOfKind, Complete;
    forall s | s in scans ensures HasKind(merged, s.host.kind) {
      var k :| 0 <= k < |groups| && groups[k].host.kind == s.host.kind;
      assert merged[k].host.kind == s.host.kind;
    }
  }

  /** `group_scans_by_kind`: no per-client file is written twice, and none is missing. */
  method GroupScansByKind(scans: seq<ScanResult>) returns (merged: seq<ScanResult>)
    ensures MergedByKind(merged, scans)
  {
    hide IsMergeOfKind, Complete, OneGroupPerKind, MergedByKind;
    var groups := GroupByKind(scans);
    merged := [];
    var i := 0;
    while i < |groups|
      invariant 0 <= i <= |groups| && |merged| == i
      invariant forall j :: 0 <= j < i ==> merged[j].host == groups[j].host && IsMergeOfKind(merged[j], scans)
    {
      var one := MergeGroup(groups[i], scans);
      merged := merged + [one];
      i := i + 1;
    }
    GroupsAreMerged(groups, merged, scans);
  }

  lemma {:induction false} OfKindHolds(scans: seq<ScanResult>, kind: HostKind, k: nat)
    requires k < |scans| && scans[k].host.kind == kind
    ensures scans[k] in OfKind(scans, kind)
  {
    if k < |scans| - 1 { OfKindHolds(scans[..|scans| - 1], kind, k); }
  }

  /** The service is there under its own name or a rename of it. */
  ghost predicate Offers(services: seq<Service>, svc: Service) {
    exists s :: s in services && Merge.NamedAfter(s.name, svc.name) && Alike(s, svc)
  }

  /** No client loses a service by sharing its file with others of its kind. */
  lemma EveryClientKeepsItsServices(scans: seq<ScanResult>, merged: seq<ScanResult>, k: nat, svc: Service)
    requires MergedByKind(merged, scans) && k < |scans| && svc in scans[k].services
    ensures exists i ::
              0 <= i < |merged| && merged[i].host.kind == scans[k].host.kind && Offers(merged[i].services, svc)
  {
    var kind := scans[k].host.kind;
    assert HasKind(merged, kind);
    var i :| 0 <= i < |merged| && merged[i].host.kind == kind;
    var same := OfKind(scans, kind);
    assert IsMergeOfKind(merged[i], scans);
    OfKindHolds(scans, kind, k);
    var n :| 0 <= n < |same| && same[n] == scans[k];
    Merge.ScannedIsFound(same, n, svc);
    var r := Merge.Representative(same, Variant(scans[k].host, svc));
    assert Services(Merged(same))[r] == Merged(same)[r].service;
    assert Offers(merged[i].services, svc);
  }
}
