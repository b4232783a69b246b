/** Reading MCP servers out of a client's configuration, and rewriting the selected ones to go
    through the proxy. Configurations are values; JSON and TOML differ in the key the servers
    are under and in what an entry of the wrong shape does. */
module Rewrite {
  import opened Wrappers
  import opened Json
  import opened Entries
  import opened Scan
  import Generate

  datatype Schema = McpServersJson | ServersJson | AutoJson | McpServersToml

  const MCP_SERVERS := "mcpServers"
  const SERVERS := "servers"
  const MCP_SERVERS_TOML := "mcp_servers"

  // ----- a rewritten entry

  /** `command`, `args` and `env` of a rewritten server. */
  function ProxyEntry(svc: Service, dir: string, proxyCmd: string, proxyArgs: seq<string>): Value {
    var args := proxyArgs + ["--socket", Generate.SocketFor(svc, dir)];
    var base := map["command" := Str(proxyCmd), "args" := Arr(Strings(args))];
    match svc.env
    case None => Obj(base)
    case Some(env) => Obj(base["env" := Obj(Texts(env))])
  }

  /** What a scan makes of a rewritten server. */
  function Proxied(svc: Service, dir: string, proxyCmd: string, proxyArgs: seq<string>): Service {
    Service(svc.name, proxyCmd, proxyArgs + ["--socket", Generate.SocketFor(svc, dir)], None, None, svc.env, None)
  }

  lemma ProxyEntryParses(svc: Service, dir: string, proxyCmd: string, proxyArgs: seq<string>)
    ensures ParseServer(svc.name, ProxyEntry(svc, dir, proxyCmd, proxyArgs)) ==
            Some(Proxied(svc, dir, proxyCmd, proxyArgs))
  {
    var entry, args := ProxyEntry(svc, dir, proxyCmd, proxyArgs),
      proxyArgs + ["--socket", Generate.SocketFor(svc, dir)];
    StringsBack(args, if svc.env.Some? then svc.env.value else map[]);
    assert "cwd" !in entry.fields && "socket" !in entry.fields && "enabled" !in entry.fields;
  }

  // ----- a whole file

  /** The servers in a table, by name. */
  function Servers(table: map<string, Value>): map<string, Service> {
    map name | name in table && ParseServer(name, table[name]).Some? :: ParseServer(name, table[name]).value
  }

  /** A scan's list holds every server of the table once. */
  ghost predicate Lists(services: seq<Service>, servers: map<string, Service>) {
    && (forall s :: s in services ==> s.name in servers && servers[s.name] == s)
    && (forall name :: name in servers ==> servers[name] in services)
    && (forall i, j :: 0 <= i < j < |services| ==> services[i].name != services[j].name)
  }

  lemma ListsNext(services: seq<Service>, servers: map<string, Service>, todo: set<string>, name: string)
    requires Lists(services, servers - todo) && name in todo
    ensures name in servers && servers[name].name == name ==>
            Lists(services + [servers[name]], servers - (todo - {name}))
    ensures name !in servers ==> Lists(services, servers - (todo - {name}))
  {
    if name in servers && servers[name].name == name {
      var more, rest := services + [servers[name]], servers - (todo - {name});
      assert more[|services|] == servers[name];
      forall n | n in rest ensures rest[n] in more {
        if n != name { assert n in servers - todo; }
      }
      assert forall s :: s in services ==> s.name !in todo;
    } else if name !in servers {
      assert servers - (todo - {name}) == servers - todo;
    }
  }

  lemma ServerAt(table: map<string, Value>, name: string)
    requires name in table
    ensures var parsed := ParseServer(name, table[name]);
      && (name in Servers(table) <==> parsed.Some?)
      && (parsed.Some? ==> Servers(table)[name] == parsed.value && parsed.value.name == name)
  {
  }

  lemma Untouched(servers: map<string, Service>, names: set<string>)
    requires servers.Keys <= names
    ensures servers - names == map[] && servers - {} == servers
  {
  }

  /** The loop of `parse_json_servers_under_key`: the services that entries of the table describe,
      each under the name of its entry, and once. */
  method CollectServers(table: map<string, Value>) returns (services: seq<Service>)
    ensures Lists(services, Servers(table))
    ensures forall svc :: svc in services <==> svc.name in table && IsEntryOf(table[svc.name], svc)
    ensures forall i, j :: 0 <= i < j < |services| ==> services[i].name != services[j].name
  {
    services := [];
    var todo := table.Keys;
    ghost var servers := Servers(table);
    Untouched(servers, todo);
    while todo != {}
      invariant todo <= table.Keys
      invariant Lists(services, servers - todo)
      decreases |todo|
    {
      var name :| name in todo;
      ServerAt(table, name);
      ListsNext(services, servers, todo, name);
      var parsed := ParseServer(name, table[name]);
      if parsed.Some? { services := services + [parsed.value]; }
      todo := todo - {name};
    }
    ListedIffDescribed(services, table);
  }

  lemma ListedIffDescribed(services: seq<Service>, table: map<string, Value>)
    requires Lists(services, Servers(table))
    ensures forall svc :: svc in services <==> svc.name in table && IsEntryOf(table[svc.name], svc)
  {
    hide ParseServer, IsEntryOf;
    forall svc ensures svc in services <==> svc.name in table && IsEntryOf(table[svc.name], svc) {
      if svc.name in table { FoundIffDescribed(table, svc.name, svc); }
    }
  }

  /** The service is found under this name. */
  predicate IsFound(servers: map<string, Service>, name: string, svc: Service) {
    name in servers && servers[name] == svc
  }

  lemma FoundIffDescribed(table: map<string, Value>, name: string, svc: Service)
    ensures IsFound(Servers(table), name, svc) <==> svc.name == name && name in table && IsEntryOf(table[name], svc)
  {
    hide ParseServer, IsEntryOf;
    if name in table {
      ParsesIff(name, table[name], svc);
      ServerAt(table, name);
    }
  }

  function JsonServers(root: Value, key: string, requirePresent: bool): Result<map<string, Service>> {
    match Get(root, key)
    case Some(Obj(table)) => Ok(Servers(table))
    case Some(_) => Err("`" + key + "` is not an object")
    case None => if requirePresent then Err("missing `" + key + "`") else Ok(map[])
  }

  /** An entry that is not a table cannot be printed on its own, which fails the whole scan. */
  function TomlServers(root: Value): Result<map<string, Service>> {
    match Get(root, MCP_SERVERS_TOML)
    case Some(Obj(table)) =>
      if forall name :: name in table ==> table[name].Obj? then Ok(Servers(table)) else Err("re-serialize toml entry")
    case _ => Ok(map[])
  }

  /** `scan_host_file` of a JSON file, on its parsed contents. */
  function ScanJson(root: Value, schema: Schema): Result<map<string, Service>> {
    match schema
    case McpServersJson => JsonServers(root, MCP_SERVERS, true)
    case ServersJson => JsonServers(root, SERVERS, true)
    case _ =>
      match JsonServers(root, MCP_SERVERS, false)
      case Err(e) => Err(e)
      case Ok(primary) => if primary != map[] then Ok(primary) else JsonServers(root, SERVERS, false)
  }

  // ----- what a scan finds

  /** The services found are those that entries of the table describe, by name. */
  ghost predicate Finds(found: Result<map<string, Service>>, table: map<string, Value>) {
    && found.Ok?
    && forall name, svc :: IsFound(found.value, name, svc) <==>
         svc.name == name && name in table && IsEntryOf(table[name], svc)
  }

  lemma ServersAreFound(table: map<string, Value>)
    ensures Finds(Ok(Servers(table)), table)
  {
    hide Servers, IsFound, IsEntryOf;
    forall name, svc
      ensures IsFound(Servers(table), name, svc) <==>
              svc.name == name && name in table && IsEntryOf(table[name], svc)
    {
      FoundIffDescribed(table, name, svc);
    }
  }

  /** A JSON file with a fixed key: what stands under that key, which has to be there. */
  lemma ScansUnderItsKey(root: Value)
    ensures match Get(root, "mcpServers")
            case Some(Obj(table)) => Finds(ScanJson(root, McpServersJson), table)
            case _ => ScanJson(root, McpServersJson).Err?
    ensures match Get(root, "servers")
            case Some(Obj(table)) => Finds(ScanJson(root, ServersJson), table)
            case _ => ScanJson(root, ServersJson).Err?
  {
    hide Servers, Finds;
    forall table { ServersAreFound(table); }
  }

  ghost predicate DescribesNothing(table: map<string, Value>) {
    forall name, svc: Service :: name in table && svc.name == name ==> !IsEntryOf(table[name], svc)
  }

  /** Without a fixed key `mcpServers` comes first, and `servers` counts when nothing is there. */
  lemma ScansEitherKey(root: Value)
    ensures var found := ScanJson(root, AutoJson);
      match Get(root, "mcpServers")
      case Some(Obj(table)) =>
        if !DescribesNothing(table) then Finds(found, table)
        else
          (match Get(root, "servers")
           case Some(Obj(other)) => Finds(found, other)
           case Some(_) => found.Err?
           case None => found == Ok(map[]))
      case Some(_) => found.Err?
      case None =>
        match Get(root, "servers")
        case Some(Obj(other)) => Finds(found, other)
        case Some(_) => found.Err?
        case None => found == Ok(map[])
  {
    hide Finds;
    forall table ensures Servers(table) == map[] <==> DescribesNothing(table) { EmptyIffNothing(table); }
    hide Servers, DescribesNothing;
    forall table { ServersAreFound(table); }
  }

  lemma EmptyIffNothing(table: map<string, Value>)
    ensures Servers(table) == map[] <==> DescribesNothing(table)
  {
    hide Servers, IsEntryOf;
    if Servers(table) != map[] {
      var name :| name in Servers(table);
      FoundIffDescribed(table, name, Servers(table)[name]);
    } else {
      forall name, svc: Service | name in table && svc.name == name ensures !IsEntryOf(table[name], svc) {
        FoundIffDescribed(table, name, svc);
      }
    }
  }

  /** A TOML file: what stands under `mcp_servers`, if anything does, all of it being tables. */
  lemma ScansToml(root: Value)
    ensures match Get(root, "mcp_servers")
            case Some(Obj(table)) =>
              if forall name :: name in table ==> table[name].Obj? then Finds(TomlServers(root), table)
              else TomlServers(root).Err?
            case _ => TomlServers(root) == Ok(map[])
  {
    hide Servers, Finds;
    forall table { ServersAreFound(table); }
  }

  /** What a rewritten entry says: it runs the proxy on the service's socket, its own or the one
      named after it, with the service's environment and nothing else. */
  lemma RewrittenEntrySays(svc: Service, p: Proxy)
    ensures var socket := if svc.socket.Some? then svc.socket.value else Generate.Join(p.dir, svc.name + ".sock");
      Describes(EntryFor(svc, p), Service(svc.name, p.cmd, p.args + ["--socket", socket], None, None, svc.env, None))
  {
    var args := p.args + ["--socket", Generate.SocketFor(svc, p.dir)];
    var entry := EntryFor(svc, p);
    assert Get(entry, "args") == Some(Arr(Strings(args)));
    assert Get(entry, "cwd") == None && Get(entry, "socket") == None && Get(entry, "enabled") == None;
    if svc.env.Some? { assert Get(entry, "env") == Some(Obj(Texts(svc.env.value))); }
  }

  // ----- rewriting

  /** The key `rewrite_json_keep_other_keys` updates. */
  function RewriteKey(fields: map<string, Value>, schema: Schema): string {
    match schema
    case McpServersJson => MCP_SERVERS
    case ServersJson => SERVERS
    case AutoJson => if MCP_SERVERS in fields then MCP_SERVERS else if SERVERS in fields then SERVERS else MCP_SERVERS
    case McpServersToml => MCP_SERVERS
  }

  function Table(fields: map<string, Value>, key: string): map<string, Value> {
    if key in fields && fields[key].Obj? then fields[key].fields else map[]
  }

  datatype Proxy = Proxy(dir: string, cmd: string, args: seq<string>)

  function EntryFor(svc: Service, p: Proxy): Value {
    ProxyEntry(svc, p.dir, p.cmd, p.args)
  }

  function Overwrite(table: map<string, Value>, services: seq<Service>, p: Proxy): map<string, Value> {
    if services == [] then table
    else
      var last := services[|services| - 1];
      Overwrite(table, services[..|services| - 1], p)[last.name := EntryFor(last, p)]
  }

  /** Unselected entries as they were, selected ones through the proxy. */
  function RewrittenTable(existing: map<string, Value>, services: seq<Service>, p: Proxy): map<string, Value> {
    Overwrite(existing - Generate.NamesOf(services), services, p)
  }

  method CopyUnselected(existing: map<string, Value>, names: set<string>) returns (table: map<string, Value>)
    ensures table == existing - names
  {
    table := map[];
    var todo := existing.Keys;
    while todo != {}
      invariant todo <= existing.Keys
      invariant table == existing - names - todo
      decreases |todo|
    {
      var name :| name in todo;
      if name !in names { table := table[name := existing[name]]; }
      todo := todo - {name};
    }
  }

  method RewriteTable(
    existing: map<string, Value>, services: seq<Service>, p: Proxy) returns (table: map<string, Value>)
    ensures table == RewrittenTable(existing, services, p)
  {
    table := CopyUnselected(existing, set s | s in services :: s.name);
    ghost var kept := table;
    var i := 0;
    while i < |services|
      invariant 0 <= i <= |services|
      invariant table == Overwrite(kept, services[..i], p)
    {
      assert services[..i + 1][..i] == services[..i];
      table := table[services[i].name := EntryFor(services[i], p)];
      i := i + 1;
    }
    assert services[..i] == services;
  }

  const NOT_AN_OBJECT := "top-level JSON must be an object"

  function Rewritten(fields: map<string, Value>, key: string, services: seq<Service>, p: Proxy): Value {
    Obj(fields[key := Obj(RewrittenTable(Table(fields, key), services, p))])
  }

  /** `rewrite_json_keep_other_keys` */
  method RewriteJson(root: Value, schema: Schema, services: seq<Service>, p: Proxy) returns (r: Result<Value>)
    ensures r == if root.Obj? then Ok(Rewritten(root.fields, RewriteKey(root.fields, schema), services, p))
            else Err(NOT_AN_OBJECT)
  {
    if !root.Obj? { return Err(NOT_AN_OBJECT); }
    var key := RewriteKey(root.fields, schema);
    var table := RewriteTable(Table(root.fields, key), services, p);
    return Ok(Obj(root.fields[key := Obj(table)]));
  }

  /** `rewrite_toml_keep_other_tables`: a TOML file is always a table. */
  method RewriteToml(fields: map<string, Value>, services: seq<Service>, p: Proxy) returns (r: Value)
    ensures r == Rewritten(fields, MCP_SERVERS_TOML, services, p)
  {
    var table := RewriteTable(Table(fields, MCP_SERVERS_TOML), services, p);
    return Obj(fields[MCP_SERVERS_TOML := Obj(table)]);
  }

  // ----- surgical

  lemma {:induction false} OverwriteMeans(table: map<string, Value>, services: seq<Service>, p: Proxy, name: string)
    ensures var last, after := Generate.LastNamed(services, name), Overwrite(table, services, p);
      && (name in after <==> last.Some? || name in table)
      && (last.Some? ==> after[name] == EntryFor(last.value, p))
      && (last.None? && name in table ==> after[name] == table[name])
  {
    if services != [] { OverwriteMeans(table, services[..|services| - 1], p, name); }
  }

  /** A rewrite is surgical: other top-level keys and unselected entries keep their values,
      selected ones run the proxy, and no key or entry appears or disappears otherwise. */
  lemma RewriteIsSurgical(fields: map<string, Value>, key: string, services: seq<Service>, p: Proxy, name: string)
    ensures var after := Rewritten(fields, key, services, p).fields;
      && after.Keys == fields.Keys + {key}
      && (name in fields && name != key ==> after[name] == fields[name])
      && after[key].Obj?
    ensures var before, table := Table(fields, key), Table(Rewritten(fields, key, services, p).fields, key);
      var selected := Generate.LastNamed(services, name);
      && (name in table <==> name in before || name in Generate.NamesOf(services))
      && (selected.Some? <==> name in Generate.NamesOf(services))
      && (selected.Some? ==> table[name] == EntryFor(selected.value, p))
      && (selected.None? && name in before ==> table[name] == before[name])
  {
    Generate.LastNamedIff(services, name);
    OverwriteMeans(Table(fields, key) - Generate.NamesOf(services), services, p, name);
  }

  // ----- scanning again

  function ThroughProxy(svc: Service, p: Proxy): Service {
    Proxied(svc, p.dir, p.cmd, p.args)
  }

  /** The old scan with the selected services going through the proxy. */
  function Redirected(servers: map<string, Service>, services: seq<Service>, p: Proxy): map<string, Service> {
    map name | name in servers.Keys + Generate.NamesOf(services) ::
      Generate.LastNamedIff(services, name);
      var selected := Generate.LastNamed(services, name);
      if selected.Some? then ThroughProxy(selected.value, p) else servers[name]
  }

  lemma RedirectedEntry(existing: map<string, Value>, services: seq<Service>, p: Proxy, name: string)
    ensures var after := Servers(RewrittenTable(existing, services, p));
      var before := Redirected(Servers(existing), services, p);
      (name in after <==> name in before) && (name in after ==> after[name] == before[name])
  {
    Generate.LastNamedIff(services, name);
    OverwriteMeans(existing - Generate.NamesOf(services), services, p, name);
    var selected := Generate.LastNamed(services, name);
    if selected.Some? { ProxyEntryParses(selected.value, p.dir, p.cmd, p.args); }
  }

  /** Scanning a rewritten file under the same key gives the old scan, with the selected
      services now running the proxy with their environment kept. */
  lemma RescanAfterRewrite(fields: map<string, Value>, key: string, services: seq<Service>, p: Proxy, require: bool)
    ensures JsonServers(Rewritten(fields, key, services, p), key, require) ==
            Ok(Redirected(Servers(Table(fields, key)), services, p))
  {
    var after, before := Servers(RewrittenTable(Table(fields, key), services, p)),
      Redirected(Servers(Table(fields, key)), services, p);
    forall name ensures (name in after <==> name in before) && (name in after ==> after[name] == before[name]) {
      RedirectedEntry(Table(fields, key), services, p, name);
    }
    assert after == before;
  }

  /** With a fixed key a file is rewritten and scanned again under that key. */
  lemma FixedKeyRescan(fields: map<string, Value>, services: seq<Service>, p: Proxy)
    ensures ScanJson(Rewritten(fields, RewriteKey(fields, McpServersJson), services, p), McpServersJson) ==
            Ok(Redirected(Servers(Table(fields, "mcpServers")), services, p))
    ensures ScanJson(Rewritten(fields, RewriteKey(fields, ServersJson), services, p), ServersJson) ==
            Ok(Redirected(Servers(Table(fields, "servers")), services, p))
  {
    RescanAfterRewrite(fields, "mcpServers", services, p, true);
    RescanAfterRewrite(fields, "servers", services, p, true);
  }

  lemma TomlRescanAfterRewrite(fields: map<string, Value>, services: seq<Service>, p: Proxy)
    requires TomlServers(Obj(fields)).Ok?
    ensures TomlServers(Rewritten(fields, MCP_SERVERS_TOML, services, p)) ==
            Ok(Redirected(TomlServers(Obj(fields)).value, services, p))
  {
    var table := RewrittenTable(Table(fields, MCP_SERVERS_TOML), services, p);
    RescanAfterRewrite(fields, MCP_SERVERS_TOML, services, p, false);
    forall name | name in table ensures table[name].Obj? {
      RewriteIsSurgical(fields, MCP_SERVERS_TOML, services, p, name);
    }
  }

  // ----- rewriting again

  /** A second selection of the same names, as a scan of the rewritten file gives them. */
  ghost predicate SelectsAgain(again: seq<Service>, services: seq<Service>, p: Proxy) {
    forall name :: Generate.LastNamed(again, name) ==
      match Generate.LastNamed(services, name)
      case None => None
      case Some(svc) => Some(ThroughProxy(svc, p))
  }

  /** What a scan gives for the names selected before. */
  function SelectedAgain(servers: map<string, Service>, services: seq<Service>, p: Proxy): map<string, Service> {
    map name | name in Redirected(servers, services, p) && name in Generate.NamesOf(services) ::
      Redirected(servers, services, p)[name]
  }

  lemma SelectedAgainAt(servers: map<string, Service>, services: seq<Service>, p: Proxy, name: string)
    ensures var selected, found := Generate.LastNamed(services, name), SelectedAgain(servers, services, p);
      && (name in found <==> selected.Some?)
      && (name in found ==> found[name] == ThroughProxy(selected.value, p) && found[name].name == name)
  {
    Generate.LastNamedIff(services, name);
  }

  lemma ListedLast(again: seq<Service>, found: map<string, Service>, name: string)
    requires Lists(again, found) && (name in found ==> found[name].name == name)
    ensures Generate.LastNamed(again, name) == if name in found then Some(found[name]) else None
  {
    Generate.LastNamedIff(again, name);
    if name in found { assert found[name] in again; }
  }

  lemma RescanSelectsAgain(servers: map<string, Service>, services: seq<Service>, again: seq<Service>, p: Proxy)
    requires Lists(again, SelectedAgain(servers, services, p))
    ensures SelectsAgain(again, services, p)
  {
    forall name ensures Generate.LastNamed(again, name) ==
      match Generate.LastNamed(services, name)
      case None => None
      case Some(svc) => Some(ThroughProxy(svc, p))
    {
      SelectedAgainAt(servers, services, p, name);
      ListedLast(again, SelectedAgain(servers, services, p), name);
    }
  }

  /** The socket a service is given when it names none itself. */
  predicate UsesDefaultSocket(svc: Service, p: Proxy) {
    Generate.SocketFor(svc, p.dir) == Generate.Join(p.dir, svc.name + ".sock")
  }

  lemma SameEntryIff(svc: Service, p: Proxy)
    ensures EntryFor(ThroughProxy(svc, p), p) == EntryFor(svc, p) <==> UsesDefaultSocket(svc, p)
  {
    var first, again := EntryFor(svc, p).fields["args"].items, EntryFor(ThroughProxy(svc, p), p).fields["args"].items;
    assert first[|p.args| + 1] == Str(Generate.SocketFor(svc, p.dir));
    assert again[|p.args| + 1] == Str(Generate.Join(p.dir, svc.name + ".sock"));
  }

  lemma EntryTwice(table: map<string, Value>, services: seq<Service>, again: seq<Service>, p: Proxy, name: string)
    requires SelectsAgain(again, services, p)
    ensures var once := RewrittenTable(table, services, p); var twice := RewrittenTable(once, again, p);
      var selected := Generate.LastNamed(services, name);
      && (name in twice <==> name in once)
      && (name in once && selected.None? ==> twice[name] == once[name])
      && (selected.Some? ==> name in once && (twice[name] == once[name] <==> UsesDefaultSocket(selected.value, p)))
  {
    var once := RewrittenTable(table, services, p);
    Generate.LastNamedIff(services, name);
    Generate.LastNamedIff(again, name);
    OverwriteMeans(table - Generate.NamesOf(services), services, p, name);
    OverwriteMeans(once - Generate.NamesOf(again), again, p, name);
    if Generate.LastNamed(services, name).Some? { SameEntryIff(Generate.LastNamed(services, name).value, p); }
  }

  /** Every selected service is reached through the default socket. */
  ghost predicate AllDefaultSockets(services: seq<Service>, p: Proxy) {
    forall name :: Generate.LastNamed(services, name).Some? ==>
      UsesDefaultSocket(Generate.LastNamed(services, name).value, p)
  }

  lemma TableTwice(table: map<string, Value>, services: seq<Service>, again: seq<Service>, p: Proxy)
    requires SelectsAgain(again, services, p)
    ensures RewrittenTable(RewrittenTable(table, services, p), again, p) == RewrittenTable(table, services, p) <==>
            AllDefaultSockets(services, p)
  {
    var once := RewrittenTable(table, services, p);
    var twice := RewrittenTable(once, again, p);
    forall name
      ensures name in twice <==> name in once
      ensures name in once && Generate.LastNamed(services, name).None? ==> twice[name] == once[name]
      ensures Generate.LastNamed(services, name).Some? ==>
        name in once && (twice[name] == once[name] <==> UsesDefaultSocket(Generate.LastNamed(services, name).value, p))
    {
      EntryTwice(table, services, again, p, name);
    }
    if AllDefaultSockets(services, p) {
      forall name | name in once ensures twice[name] == once[name] { }
      assert twice == once;
    }
  }

  /** Rewriting the rewritten file again changes nothing exactly when every selected service
      was reached through the default socket, as any service without one of its own is. */
  lemma SecondRewriteIsNoOpIff(
    fields: map<string, Value>, key: string, services: seq<Service>, again: seq<Service>, p: Proxy)
    requires SelectsAgain(again, services, p)
    ensures Rewritten(Rewritten(fields, key, services, p).fields, key, again, p) ==
            Rewritten(fields, key, services, p) <==>
            AllDefaultSockets(services, p)
    ensures (forall svc :: svc in services ==> svc.socket.None?) ==> AllDefaultSockets(services, p)
  {
    var once := RewrittenTable(Table(fields, key), services, p);
    var rewritten := fields[key := Obj(once)];
    TableTwice(Table(fields, key), services, again, p);
    var twice := RewrittenTable(once, again, p);
    assert Rewritten(rewritten, key, again, p) == Obj(rewritten[key := Obj(twice)]);
    assert rewritten[key := Obj(twice)][key] == Obj(twice) && rewritten[key] == Obj(once);
    assert twice == once ==> rewritten[key := Obj(twice)] == rewritten;
    forall name ensures Generate.LastNamed(services, name).Some? ==>
                        Generate.LastNamed(services, name).value in services {
      Generate.LastNamedIff(services, name);
    }
  }

  const OWN_SOCKET := Service("a", "x", [], None, Some("/run/a.sock"), None, None)
  const PROXY := Proxy("/run/mux", "rust-mux-proxy", [])

  /** A service with a socket of its own: the second rewrite points its proxy at another socket. */
  lemma SecondRewriteCanChange(fields: map<string, Value>, key: string)
    ensures var again := [ThroughProxy(OWN_SOCKET, PROXY)];
      && SelectsAgain(again, [OWN_SOCKET], PROXY)
      && Rewritten(Rewritten(fields, key, [OWN_SOCKET], PROXY).fields, key, again, PROXY) !=
         Rewritten(fields, key, [OWN_SOCKET], PROXY)
  {
    var services, again := [OWN_SOCKET], [ThroughProxy(OWN_SOCKET, PROXY)];
    assert services[..0] == [] && again[..0] == [];
    forall name
      ensures Generate.LastNamed(services, name) == (if name == "a" then Some(OWN_SOCKET) else None)
      ensures Generate.LastNamed(again, name) == (if name == "a" then Some(again[0]) else None)
    {
      assert Generate.LastNamed([], name) == None;
    }
    assert Generate.Join(PROXY.dir, "a.sock") == "/run/mux/a.sock" && "/run/a.sock"[5] != "/run/mux/a.sock"[5];
    assert Generate.LastNamed(services, "a") == Some(OWN_SOCKET) && !UsesDefaultSocket(OWN_SOCKET, PROXY);
    assert !AllDefaultSockets(services, PROXY);
    SecondRewriteIsNoOpIff(fields, key, services, again, PROXY);
  }

  // ----- which key

  /** Scan and rewrite of a file without a fixed key look under the same one. */
  predicate KeysAgree(fields: map<string, Value>) {
    MCP_SERVERS !in fields || Servers(Table(fields, MCP_SERVERS)) != map[]
  }

  lemma AutoScanKey(fields: map<string, Value>)
    requires ScanJson(Obj(fields), AutoJson).Ok?
    ensures var key := if KeysAgree(fields) then RewriteKey(fields, AutoJson) else SERVERS;
      ScanJson(Obj(fields), AutoJson).value == Servers(Table(fields, key))
  {
  }

  lemma AutoRescan(fields: map<string, Value>, services: seq<Service>, p: Proxy)
    requires services != []
    ensures var key := RewriteKey(fields, AutoJson);
      ScanJson(Rewritten(fields, key, services, p), AutoJson) ==
        Ok(Redirected(Servers(Table(fields, key)), services, p))
  {
    var key := RewriteKey(fields, AutoJson);
    var again := Rewritten(fields, key, services, p);
    RescanAfterRewrite(fields, key, services, p, false);
    if key == MCP_SERVERS {
      assert services[0] in services;
      assert services[0].name in Redirected(Servers(Table(fields, key)), services, p);
    } else {
      assert MCP_SERVERS !in fields && MCP_SERVERS != SERVERS;
      assert JsonServers(again, MCP_SERVERS, false) == Ok(map[]);
    }
  }

  lemma RedirectedFromNothing(servers: map<string, Service>, services: seq<Service>, p: Proxy)
    ensures Redirected(map[], services, p) == Redirected(servers, services, p) <==>
            servers.Keys <= Generate.NamesOf(services)
  {
    var some, none := Redirected(servers, services, p), Redirected(map[], services, p);
    assert some.Keys == servers.Keys + Generate.NamesOf(services) && none.Keys == Generate.NamesOf(services);
    if servers.Keys <= Generate.NamesOf(services) {
      forall name | name in some ensures some[name] == none[name] { Generate.LastNamedIff(services, name); }
    }
  }

  /** When no key is fixed, a rewrite followed by a scan gives the old scan with the selected
      services redirected exactly when `mcpServers` is absent or holds a server, or when
      everything was selected. Otherwise the rewrite fills `mcpServers`, and the next scan no
      longer looks at the servers that were not selected. */
  lemma AutoRescanIff(fields: map<string, Value>, services: seq<Service>, p: Proxy)
    requires var scan := ScanJson(Obj(fields), AutoJson);
      scan.Ok? && services != [] && Generate.NamesOf(services) <= scan.value.Keys
    ensures var servers := ScanJson(Obj(fields), AutoJson).value;
      ScanJson(Rewritten(fields, RewriteKey(fields, AutoJson), services, p), AutoJson) ==
        Ok(Redirected(servers, services, p)) <==>
      KeysAgree(fields) || servers.Keys <= Generate.NamesOf(services)
  {
    var servers := ScanJson(Obj(fields), AutoJson).value;
    AutoScanKey(fields);
    AutoRescan(fields, services, p);
    if !KeysAgree(fields) { RedirectedFromNothing(servers, services, p); }
  }

  // ----- a file that is scanned and rewritten under different keys

  function Command(command: string): Value {
    Obj(map["command" := Str(command)])
  }

  const SPLIT: map<string, Value> := map[
    MCP_SERVERS := Obj(map[]),
    SERVERS := Obj(map["a" := Command("x"), "b" := Command("y")])
  ]
  const SELECTED := Service("a", "x", [], None, None, None, None)

  lemma SplitServers()
    ensures Servers(Table(SPLIT, MCP_SERVERS)) == map[]
    ensures Servers(Table(SPLIT, SERVERS)).Keys == {"a", "b"}
    ensures ScanJson(Obj(SPLIT), AutoJson) == Ok(Servers(Table(SPLIT, SERVERS)))
  {
    assert MCP_SERVERS != SERVERS by { assert |MCP_SERVERS| != |SERVERS|; }
    assert "a" != "b";
    var table := Table(SPLIT, SERVERS);
    assert ParseServer("a", table["a"]).Some? && ParseServer("b", table["b"]).Some?;
    assert "a" in Servers(table) && "b" in Servers(table);
  }

  /** With an empty `mcpServers` beside a filled `servers`, rewriting one of two servers makes
      the next scan lose sight of the other. */
  lemma AutoRescanCanFail(p: Proxy)
    ensures var scan := ScanJson(Obj(SPLIT), AutoJson);
      && scan.Ok? && SELECTED.name in scan.value
      && ScanJson(Rewritten(SPLIT, RewriteKey(SPLIT, AutoJson), [SELECTED], p), AutoJson) !=
         Ok(Redirected(scan.value, [SELECTED], p))
  {
    SplitServers();
    assert Generate.NamesOf([SELECTED]) == {"a"};
    assert "b" != "a";
    AutoRescanIff(SPLIT, [SELECTED], p);
  }
}
