/** The variables a pane's command sets before the deck runs, and when they are the ones asked for. */
module Environment {
  import opened Wrappers
  import opened Launch
  import opened Pane
  import Text

  type Vars = map<string, string>

  /** A name that can be given to a variable (section 3.230 of the Base Definitions of
      POSIX.1-2017). */
  predicate IsIdentifier(name: string) {
    name != [] && !Text.IsDigit(name[0]) && forall i :: 0 <= i < |name| ==> IsNameChar(name[i])
  }

  /** Where the first `=` stands. */
  function EqualsAt(word: string): (n: nat)
    ensures n <= |word|
  {
    if word == [] || word[0] == '=' then 0 else 1 + EqualsAt(word[1..])
  }

  /** What `export` does with its operand: a name that is no identifier is complained about, and
      bash goes on. */
  function Assign(vars: Vars, word: string): Vars {
    var n := EqualsAt(word);
    if n < |word| && IsIdentifier(word[..n]) then vars[word[..n] := word[n + 1..]] else vars
  }

  /** Only exports set variables here; what the tools set up for themselves is not followed. */
  function RunCommand(vars: Vars, command: string): Vars {
    if !Text.StartsWith(command, "export ") then vars
    else
      match Words(command)
      case Some(words) => if |words| == 2 then Assign(vars, words[1]) else vars
      case None => vars
  }

  function RunCommands(vars: Vars, commands: seq<string>): Vars {
    if commands == [] then vars
    else RunCommand(RunCommands(vars, commands[..|commands| - 1]), commands[|commands| - 1])
  }

  lemma RunNext(vars: Vars, commands: seq<string>, command: string)
    ensures RunCommands(vars, commands + [command]) == RunCommand(RunCommands(vars, commands), command)
  {
    assert (commands + [command])[..|commands|] == commands;
  }

  lemma {:induction false} RunConcat(vars: Vars, a: seq<string>, b: seq<string>)
    ensures RunCommands(vars, a + b) == RunCommands(RunCommands(vars, a), b)
  {
    if b == [] {
      assert a + b == a;
    } else {
      var init, last := b[..|b| - 1], b[|b| - 1];
      assert a + b == a + init + [last] && init + [last] == b;
      RunConcat(vars, a, init);
      RunNext(vars, a + init, last);
      RunNext(RunCommands(vars, a), init, last);
    }
  }

  // ----- one export

  lemma {:induction false} EqualsAfterName(name: string, value: string)
    requires forall i :: 0 <= i < |name| ==> IsNameChar(name[i])
    ensures EqualsAt(name + "=" + value) == |name|
  {
    if name == [] {
      assert (name + "=" + value)[0] == '=';
    } else {
      assert (name + "=" + value)[1..] == name[1..] + "=" + value;
      EqualsAfterName(name[1..], value);
    }
  }

  lemma AssignmentIsRead(vars: Vars, name: string, value: string)
    requires forall i :: 0 <= i < |name| ==> IsNameChar(name[i])
    ensures Assign(vars, name + "=" + value) == if IsIdentifier(name) then vars[name := value] else vars
  {
    var word := name + "=" + value;
    EqualsAfterName(name, value);
    assert word[..|name|] == name && word[|name| + 1..] == value;
  }

  lemma ExportRuns(vars: Vars, key: string, value: string)
    requires NulFree(value)
    ensures RunCommand(vars, Export(key, value)) ==
            if IsIdentifier(ShellName(key)) then vars[ShellName(key) := value] else vars
  {
    hide Words, ShellName, ShellQuote, Assign;
    ExportRoundTrip(key, value);
    ShellNameIsPlain(key);
    assert Export(key, value) == "export " + (ShellName(key) + "=" + ShellQuote(value));
    assert Text.StartsWith(Export(key, value), "export ");
    AssignmentIsRead(vars, ShellName(key), value);
  }

  // ----- all exports

  /** The variables are those there were, and those of the exported keys, each with a value that
      some key of that name has; the last one wins. */
  ghost predicate SetBy(vars: Vars, before: Vars, env: map<string, string>, order: seq<string>)
    requires forall i :: 0 <= i < |order| ==> order[i] in env
  {
    && (forall n :: n in vars ==> (n in before && vars[n] == before[n]) || Exported(n, vars[n], env, order))
    && (forall i :: 0 <= i < |order| && IsIdentifier(ShellName(order[i])) ==>
          ShellName(order[i]) in vars && Exported(ShellName(order[i]), vars[ShellName(order[i])], env, order))
  }

  ghost predicate Exported(name: string, value: string, env: map<string, string>, order: seq<string>)
    requires forall i :: 0 <= i < |order| ==> order[i] in env
  {
    exists i :: 0 <= i < |order| && ShellName(order[i]) == name && IsIdentifier(name) && env[order[i]] == value
  }

  lemma ExportedMore(name: string, value: string, env: map<string, string>, order: seq<string>, key: string)
    requires key in env && forall i :: 0 <= i < |order| ==> order[i] in env
    ensures Exported(name, value, env, order) ==> Exported(name, value, env, order + [key])
    ensures ShellName(key) == name && IsIdentifier(name) && env[key] == value ==>
            Exported(name, value, env, order + [key])
  {
    hide ShellName, IsIdentifier;
    var more := order + [key];
    assert more[|order|] == key;
    if Exported(name, value, env, order) {
      var i :| 0 <= i < |order| && ShellName(order[i]) == name && IsIdentifier(name) && env[order[i]] == value;
      assert more[i] == order[i];
    }
  }

  lemma ExportsSetNext(vars: Vars, before: Vars, env: map<string, string>, order: seq<string>, key: string)
    requires key in env && (forall i :: 0 <= i < |order| ==> order[i] in env) && SetBy(vars, before, env, order)
    ensures var name := ShellName(key);
      SetBy(if IsIdentifier(name) then vars[name := env[key]] else vars, before, env, order + [key])
  {
    hide ShellName, IsIdentifier, Exported;
    forall n, v {
      ExportedMore(n, v, env, order, key);
    }
  }

  lemma {:induction false} ExportsSet(before: Vars, env: map<string, string>, order: seq<string>)
    requires forall i :: 0 <= i < |order| ==> order[i] in env && NulFree(env[order[i]])
    ensures SetBy(RunCommands(before, Exports(env, order)), before, env, order)
  {
    hide ShellName, IsIdentifier, RunCommand, Export;
    if order == [] {
      assert Exports(env, order) == [];
    } else {
      var init, key := order[..|order| - 1], order[|order| - 1];
      assert init + [key] == order;
      ExportsSet(before, env, init);
      assert Exports(env, order) == Exports(env, init) + [Export(key, env[key])];
      var vars := RunCommands(before, Exports(env, init));
      RunNext(before, Exports(env, init), Export(key, env[key]));
      ExportRuns(vars, key, env[key]);
      ExportsSetNext(vars, before, env, init, key);
    }
  }

  ghost predicate Lists(order: seq<string>, env: map<string, string>) {
    (forall i :: 0 <= i < |order| ==> order[i] in env) && forall key :: key in env ==> key in order
  }

  /** Every key's value is found under what is left of its key. */
  ghost predicate AllArrive(vars: Vars, env: map<string, string>) {
    forall key :: key in env ==> ShellName(key) in vars && vars[ShellName(key)] == env[key]
  }

  /** What is left of a key is an identifier, and keys of which the same is left have the same
      value. */
  ghost predicate NamesFit(env: map<string, string>) {
    && (forall key :: key in env ==> IsIdentifier(ShellName(key)))
    && (forall k, l :: k in env && l in env && ShellName(k) == ShellName(l) ==> env[k] == env[l])
  }

  lemma ArriveIff(vars: Vars, before: Vars, env: map<string, string>, order: seq<string>)
    requires Lists(order, env) && SetBy(vars, before, env, order) && forall n :: n in before ==> IsIdentifier(n)
    ensures AllArrive(vars, env) <==> NamesFit(env)
  {
    hide ShellName, IsIdentifier;
    if AllArrive(vars, env) {
      forall key | key in env ensures IsIdentifier(ShellName(key)) {
        assert ShellName(key) in vars;
      }
    }
    if NamesFit(env) {
      forall key | key in env ensures ShellName(key) in vars && vars[ShellName(key)] == env[key] {
        var i :| 0 <= i < |order| && order[i] == key;
        assert Exported(ShellName(key), vars[ShellName(key)], env, order);
      }
    }
  }

  lemma SameIff(vars: Vars, env: map<string, string>, order: seq<string>)
    requires Lists(order, env) && SetBy(vars, map[], env, order)
    ensures vars == env <==> forall key :: key in env ==> IsIdentifier(key)
  {
    hide ShellName;
    if forall key :: key in env ==> IsIdentifier(key) {
      forall key | key in env ensures ShellName(key) == key { ShellNameKeeps(key); }
      forall key | key in env ensures key in vars && vars[key] == env[key] {
        var i :| 0 <= i < |order| && order[i] == key;
        assert ShellName(order[i]) in vars;
      }
    }
  }

  // ----- the whole pane

  function ConfigVars(configDir: Option<string>): Vars {
    if configDir.Some? then map[CONFIG_KEY := configDir.value] else map[]
  }

  const CONFIG_KEY := "ZELLIJ_CONFIG_DIR"

  lemma ConfigKeyIsName()
    ensures IsIdentifier(CONFIG_KEY) && ShellName(CONFIG_KEY) == CONFIG_KEY
  {
    assert CONFIG_KEY[0] == 'Z';
    ShellNameKeeps(CONFIG_KEY);
  }

  lemma ExportOf(key: string, prefix: string, value: string)
    requires ShellName(key) == key && "export " + key + "=" == prefix
    ensures Export(key, value) == prefix + ShellQuote(value)
  {
    hide ShellName, ShellQuote;
  }

  lemma ConfigPrefix()
    ensures "export " + CONFIG_KEY + "=" == "export ZELLIJ_CONFIG_DIR="
  {
  }

  lemma ConfigIsExport(dir: string)
    ensures ConfigExport(Some(dir)) == [Export(CONFIG_KEY, dir)]
  {
    hide ShellName, ShellQuote, Export, IsIdentifier;
    ConfigKeyIsName();
    ConfigPrefix();
    ExportOf(CONFIG_KEY, "export ZELLIJ_CONFIG_DIR=", dir);
  }

  lemma ConfigRuns(configDir: Option<string>)
    requires configDir.Some? ==> NulFree(configDir.value)
    ensures RunCommands(map[], ConfigExport(configDir)) == ConfigVars(configDir)
    ensures forall n :: n in ConfigVars(configDir) ==> IsIdentifier(n)
  {
    hide ShellName, Export, IsIdentifier, RunCommand;
    ConfigKeyIsName();
    if configDir.Some? {
      ConfigIsExport(configDir.value);
      ExportRuns(map[], CONFIG_KEY, configDir.value);
      RunNext(map[], [], Export(CONFIG_KEY, configDir.value));
      assert [] + [Export(CONFIG_KEY, configDir.value)] == ConfigExport(configDir);
    }
  }

  lemma {:induction false} NothingExported(vars: Vars, commands: seq<string>)
    requires forall i :: 0 <= i < |commands| ==> !Text.StartsWith(commands[i], "export ")
    ensures RunCommands(vars, commands) == vars
  {
    if commands != [] { NothingExported(vars, commands[..|commands| - 1]); }
  }

  lemma SnippetExportsNothing(vars: Vars, tool: string, options: string)
    ensures RunCommands(vars, SnippetCommands(tool, options)) == vars
  {
    assert Guard(tool)[0] == 'i' && Setup(tool, options)[0] == 't' && "fi"[0] == 'f' && "export "[0] == 'e';
    NothingExported(vars, SnippetCommands(tool, options));
  }

  lemma ToolsExportNothing(vars: Vars)
    ensures RunCommands(vars, Flat(SNIPPET_PIECES)) == vars
  {
    hide RunCommands, SnippetCommands;
    var a, b, c := SnippetCommands("starship", ""), SnippetCommands("zoxide", ""),
      SnippetCommands("atuin", " --disable-up-arrow");
    assert Flat(SNIPPET_PIECES) == a + b + c by {
      assert SNIPPET_PIECES[1..] == [b, c] && [b, c][1..] == [c] && [c][1..] == [];
      assert Flat([c]) == c + Flat([]) && Flat([b, c]) == b + Flat([c]);
    }
    RunConcat(vars, a + b, c);
    RunConcat(vars, a, b);
    SnippetExportsNothing(vars, "starship", "");
    SnippetExportsNothing(vars, "zoxide", "");
    SnippetExportsNothing(vars, "atuin", " --disable-up-arrow");
  }

  lemma ExecExportsNothing(vars: Vars, deck: string, args: seq<string>)
    ensures RunCommands(vars, [Exec(deck, args)]) == vars
  {
    assert Exec(deck, args)[2] == 'e' && "export "[2] == 'p';
    NothingExported(vars, [Exec(deck, args)]);
  }

  lemma PaneVars(
    configDir: Option<string>, env: map<string, string>, order: seq<string>, deck: string, args: seq<string>)
    requires forall i :: 0 <= i < |order| ==> order[i] in env
    requires configDir.Some? ==> NulFree(configDir.value)
    ensures RunCommands(map[], PaneCommands(configDir, env, order, deck, args)) ==
            RunCommands(ConfigVars(configDir), Exports(env, order))
  {
    hide RunCommands, Exports, ConfigExport, Exec, Flat;
    var a, b, c, d := ConfigExport(configDir), Exports(env, order), Flat(SNIPPET_PIECES), [Exec(deck, args)];
    RunConcat(map[], a + b + c, d);
    RunConcat(map[], a + b, c);
    RunConcat(map[], a, b);
    ConfigRuns(configDir);
    var vars := RunCommands(ConfigVars(configDir), b);
    ToolsExportNothing(vars);
    ExecExportsNothing(vars, deck, args);
  }

  /** The environment of a launch reaches the deck. With values that hold no NUL, the pane's
      command gives every value to the variable named by what is left of its key exactly when
      that is always an identifier, and keys of which the same is left have the same value; and
      without a configuration directory the variables it sets are the given ones exactly when
      all keys are identifiers. */
  lemma EnvironmentArrivesIff(
    configDir: Option<string>, env: map<string, string>, order: seq<string>, deck: string, args: seq<string>)
    requires Lists(order, env) && AllNulFree(Values(configDir, env, order, deck, args))
    ensures var commands := Commands(PaneCommand(configDir, env, order, deck, args));
      && commands.Some?
      && var vars := RunCommands(map[], commands.value);
         && (AllArrive(vars, env) <==> NamesFit(env))
         && (configDir.None? ==> (vars == env <==> forall key :: key in env ==> IsIdentifier(key)))
  {
    hide RunCommands, Commands, PaneCommand, PaneCommands, AllArrive, NamesFit, SetBy, IsIdentifier;
    PaneRunsItsCommands(configDir, env, order, deck, args);
    ValuesInOrder(configDir, env, order, deck, args);
    PaneVars(configDir, env, order, deck, args);
    ConfigRuns(configDir);
    ExportsSet(ConfigVars(configDir), env, order);
    var vars := RunCommands(ConfigVars(configDir), Exports(env, order));
    ArriveIff(vars, ConfigVars(configDir), env, order);
    if configDir.None? { SameIff(vars, env, order); }
  }

  /** Two keys that can fail to arrive: one that begins with a digit, and one that another key
      takes the name from. */
  lemma EnvironmentCanFail()
    ensures !NamesFit(map["1A" := "x"])
    ensures !NamesFit(map["A-B" := "x", "AB" := "y"])
  {
    ShellNameKeeps("1A");
    ShellNameKeeps("AB");
    assert "1A"[0] == '1';
    assert ShellName("A-B") == "AB" by {
      assert "A-B"[1..] == "-B" && "-B"[1..] == "B" && "B"[1..] == "";
      assert ShellName("B") == ['B'] + ShellName("") && ShellName("-B") == [] + ShellName("B");
    }
    var env := map["A-B" := "x", "AB" := "y"];
    assert |"A-B"| != |"AB"| && "x" != "y" && env["A-B"] == "x" && env["AB"] == "y";
  }
}
