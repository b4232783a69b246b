/** The pane's command as the shell takes it apart: a list of commands with `;` between them
    (section 2.9.3 of the Shell Command Language in POSIX.1-2017). Quotes, substitutions and
    redirections are followed as far as the pane uses them; anything else gives nothing. */
module Pane {
  import opened Wrappers
  import opened Launch

  datatype Place = Open | InSingle | InDouble | InSubstitution

  /** Characters that only stand for themselves, or separate words. */
  predicate IsInert(c: char) {
    IsNameChar(c) || c in "=-/ "
  }

  predicate EndsWith(s: string, c: char) {
    s != [] && s[|s| - 1] == c
  }

  /** Collects commands; `piece` is the text of the one being read, with its quotes. */
  function Split(s: string, done: seq<string>, piece: string, place: Place): Option<seq<string>>
    decreases |s|
  {
    if s == [] then if place.Open? then Some(if piece == [] then done else done + [piece]) else None
    else
      var c, rest := s[0], s[1..];
      if c == '\0' then None
      else
        match place
        case InSingle => Split(rest, done, piece + [c], if c == QUOTE then Open else InSingle)
        case InDouble =>
          if c == '`' || c == '\\' then None
          else if c != '$' then Split(rest, done, piece + [c], if c == '"' then Open else InDouble)
          else if rest == [] || rest[0] != '(' then None
          else Split(rest[1..], done, piece + "$(", InSubstitution)
        case InSubstitution =>
          if c == ')' then Split(rest, done, piece + [c], InDouble)
          else if IsInert(c) then Split(rest, done, piece + [c], InSubstitution)
          else None
        case Open =>
          if c == ' ' && piece == [] then Split(rest, done, piece, Open)
          else if c == ';' then if piece == [] then None else Split(rest, done + [piece], [], Open)
          else if c == QUOTE then Split(rest, done, piece + [c], InSingle)
          else if c == '"' then Split(rest, done, piece + [c], InDouble)
          else if IsInert(c) || c == '>' || (c == '&' && EndsWith(piece, '>')) then Split(rest, done, piece + [c], Open)
          else None
  }

  function Commands(s: string): Option<seq<string>> {
    Split(s, [], [], Open)
  }

  // ----- a NUL is never passed over

  lemma {:induction false} NulIsRefused(s: string, done: seq<string>, piece: string, place: Place)
    requires '\0' in s
    ensures Split(s, done, piece, place).None?
    decreases |s|
  {
    var c, rest := s[0], s[1..];
    if c != '\0' {
      assert '\0' in rest;
      match place
      case InSingle => NulIsRefused(rest, done, piece + [c], if c == QUOTE then Open else InSingle);
      case InDouble =>
        if c != '$' {
          NulIsRefused(rest, done, piece + [c], if c == '"' then Open else InDouble);
        } else if rest[0] == '(' {
          assert '\0' in rest[1..];
          NulIsRefused(rest[1..], done, piece + "$(", InSubstitution);
        }
      case InSubstitution =>
        NulIsRefused(rest, done, piece + [c], if c == ')' then InDouble else InSubstitution);
      case Open =>
        NulIsRefused(rest, done, piece, Open);
        NulIsRefused(rest, done + [piece], [], Open);
        NulIsRefused(rest, done, piece + [c], InSingle);
        NulIsRefused(rest, done, piece + [c], InDouble);
        NulIsRefused(rest, done, piece + [c], Open);
    }
  }

  // ----- what is passed over

  lemma {:induction false} SplitInert(text: string, s: string, done: seq<string>, piece: string, place: Place)
    requires place.Open? || place.InSubstitution?
    requires place.Open? && piece == [] && text != [] ==> text[0] != ' '
    requires forall i :: 0 <= i < |text| ==> IsInert(text[i])
    ensures Split(text + s, done, piece, place) == Split(s, done, piece + text, place)
    decreases |text|
  {
    if text == [] {
      assert text + s == s && piece + text == piece;
    } else {
      assert (text + s)[1..] == text[1..] + s && piece + [text[0]] + text[1..] == piece + text;
      SplitInert(text[1..], s, done, piece + [text[0]], place);
    }
  }

  /** One character that neither ends nor hides anything. */
  lemma SplitStep(c: char, s: string, done: seq<string>, piece: string)
    requires piece != [] && (c == '>' || (c == '&' && EndsWith(piece, '>')))
    ensures Split([c] + s, done, piece, Open) == Split(s, done, piece + [c], Open)
  {
    assert ([c] + s)[1..] == s;
  }

  lemma SplitQuotedQuote(s: string, done: seq<string>, piece: string)
    ensures Split(QUOTED_QUOTE + s, done, piece, InSingle) == Split(s, done, piece + QUOTED_QUOTE, InSingle)
  {
    var t := QUOTED_QUOTE + s;
    assert t[0] == QUOTE && t[1] == '"' && t[2] == QUOTE && t[3] == '"' && t[4] == QUOTE;
    assert t[1..][1..] == t[2..] && t[2..][1..] == t[3..] && t[3..][1..] == t[4..] && t[4..][1..] == s;
    var p1, p2 := piece + [QUOTE], piece + [QUOTE] + ['"'];
    var p3, p4 := p2 + [QUOTE], p2 + [QUOTE] + ['"'];
    assert Split(t, done, piece, InSingle) == Split(t[1..], done, p1, Open);
    assert Split(t[1..], done, p1, Open) == Split(t[2..], done, p2, InDouble);
    assert Split(t[2..], done, p2, InDouble) == Split(t[3..], done, p3, InDouble);
    assert Split(t[3..], done, p3, InDouble) == Split(t[4..], done, p4, Open);
    assert Split(t[4..], done, p4, Open) == Split(s, done, p4 + [QUOTE], InSingle);
    assert p4 + [QUOTE] == piece + QUOTED_QUOTE;
  }

  lemma SplitReplacedOne(c: char, s: string, done: seq<string>, piece: string)
    requires c != '\0'
    ensures var text := Replace([c], QUOTE, QUOTED_QUOTE);
      Split(text + s, done, piece, InSingle) == Split(s, done, piece + text, InSingle)
  {
    ReplaceOne(c, QUOTE, QUOTED_QUOTE);
    if c == QUOTE { SplitQuotedQuote(s, done, piece); } else { assert ([c] + s)[1..] == s; }
  }

  lemma {:induction false} SplitReplaced(raw: string, s: string, done: seq<string>, piece: string)
    requires NulFree(raw)
    ensures var text := Replace(raw, QUOTE, QUOTED_QUOTE) + "'";
      Split(text + s, done, piece, InSingle) == Split(s, done, piece + text, Open)
    decreases |raw|
  {
    var text := Replace(raw, QUOTE, QUOTED_QUOTE) + "'";
    if raw == [] {
      assert text == "'" && (text + s)[1..] == s;
    } else {
      hide Split;
      var first, later := Replace([raw[0]], QUOTE, QUOTED_QUOTE), Replace(raw[1..], QUOTE, QUOTED_QUOTE) + "'";
      ReplaceOne(raw[0], QUOTE, QUOTED_QUOTE);
      hide Replace;
      SplitReplacedOne(raw[0], later + s, done, piece);
      SplitReplaced(raw[1..], s, done, piece + first);
      assert text + s == first + (later + s) && piece + first + later == piece + text;
    }
  }

  /** A quoted value stays within its command, whatever it holds. */
  lemma SplitQuoted(raw: string, s: string, done: seq<string>, piece: string)
    requires NulFree(raw)
    ensures Split(ShellQuote(raw) + s, done, piece, Open) == Split(s, done, piece + ShellQuote(raw), Open)
  {
    var text := Replace(raw, QUOTE, QUOTED_QUOTE) + "'";
    assert ShellQuote(raw) == [QUOTE] + text && (ShellQuote(raw) + s)[1..] == text + s;
    SplitReplaced(raw, s, done, piece + [QUOTE]);
    assert piece + [QUOTE] + text == piece + ShellQuote(raw);
  }

  lemma {:induction false} SplitJoined(words: seq<string>, s: string, done: seq<string>, piece: string)
    requires AllNulFree(words) && piece != []
    ensures Split(ShellJoin(words) + s, done, piece, Open) == Split(s, done, piece + ShellJoin(words), Open)
    decreases |words|
  {
    if words == [] {
      assert Quoted(words) == [] && ShellJoin(words) + s == s && piece + ShellJoin(words) == piece;
    } else {
      var word, rest := words[0], words[1..];
      assert words == [word] + rest;
      JoinedCons(word, rest);
      NulFreeCons(word, rest);
      if rest == [] {
        assert words == [word];
        SplitQuoted(word, s, done, piece);
      } else {
        var quoted := ShellQuote(word);
        assert ShellJoin(words) + s == quoted + (" " + (ShellJoin(rest) + s));
        SplitQuoted(word, " " + (ShellJoin(rest) + s), done, piece);
        SplitInert(" ", ShellJoin(rest) + s, done, piece + quoted, Open);
        SplitJoined(rest, s, done, piece + quoted + " ");
        assert piece + quoted + " " + ShellJoin(rest) == piece + ShellJoin(words);
      }
    }
  }

  // ----- parts and the commands they stand for

  /** Wherever it begins, the part is read as these commands, the last of them still open. */
  ghost predicate ReadAs(part: string, pieces: seq<string>) {
    && pieces != [] && pieces[|pieces| - 1] != []
    && forall s, done :: Split(part + s, done, [], Open) ==
                         Split(s, done + pieces[..|pieces| - 1], pieces[|pieces| - 1], Open)
  }

  lemma ExportIsOne(name: string, value: string)
    requires NulFree(value) && forall i :: 0 <= i < |name| ==> IsInert(name[i])
    ensures ReadAs("export " + name + "=" + ShellQuote(value), ["export " + name + "=" + ShellQuote(value)])
  {
    var head, part := "export " + name + "=", "export " + name + "=" + ShellQuote(value);
    forall s, done ensures Split(part + s, done, [], Open) == Split(s, done + [], part, Open) {
      assert part + s == head + (ShellQuote(value) + s) && done + [] == done && [] + head == head;
      SplitInert(head, ShellQuote(value) + s, done, [], Open);
      SplitQuoted(value, s, done, head);
    }
    assert [part][..0] == [];
  }

  lemma ExecIsOne(deck: string, args: seq<string>)
    requires NulFree(deck) && AllNulFree(args)
    ensures ReadAs(Exec(deck, args), [Exec(deck, args)])
  {
    var head, part := "exec ", Exec(deck, args);
    NulFreeCons(deck, args);
    forall s, done ensures Split(part + s, done, [], Open) == Split(s, done + [], part, Open) {
      assert part + s == head + (ShellJoin([deck] + args) + s) && done + [] == done && [] + head == head;
      SplitInert(head, ShellJoin([deck] + args) + s, done, [], Open);
      SplitJoined([deck] + args, s, done, head);
    }
    assert [part][..0] == [];
  }

  lemma SplitSeparator(s: string, done: seq<string>, piece: string)
    requires piece != []
    ensures Split("; " + s, done, piece, Open) == Split(s, done + [piece], [], Open)
  {
    var t := "; " + s;
    assert t[0] == ';' && t[1..] == " " + s && (" " + s)[1..] == s;
  }

  /** A quoted substitution stays within its command. */
  lemma SplitSubstitution(text: string, s: string, done: seq<string>, piece: string)
    requires forall i :: 0 <= i < |text| ==> IsInert(text[i])
    ensures var all := "\"$(" + text + ")\"";
      Split(all + s, done, piece, Open) == Split(s, done, piece + all, Open)
  {
    var all := "\"$(" + text + ")\"";
    var t, inner := all + s, text + (")\"" + s);
    assert t[0] == '"' && t[1] == '$' && t[2] == '(' && t[1..][1..][1..] == inner;
    var begun := piece + ['"'] + "$(";
    assert Split(t, done, piece, Open) == Split(t[1..], done, piece + ['"'], InDouble);
    assert Split(t[1..], done, piece + ['"'], InDouble) == Split(inner, done, begun, InSubstitution);
    SplitInert(text, ")\"" + s, done, begun, InSubstitution);
    var u := ")\"" + s;
    assert u[0] == ')' && u[1] == '"' && u[1..][1..] == s;
    assert Split(u, done, begun + text, InSubstitution) == Split(u[1..], done, begun + text + [')'], InDouble);
    assert Split(u[1..], done, begun + text + [')'], InDouble) == Split(s, done, begun + text + [')'] + ['"'], Open);
    assert begun + text + [')'] + ['"'] == piece + all;
  }

  function Guard(tool: string): string {
    "if command -v " + tool + " >/dev/null 2>&1"
  }

  function Setup(tool: string, options: string): string {
    "then eval " + ("\"$(" + (tool + " init bash" + options) + ")\"")
  }

  lemma SplitGuard(tool: string, s: string, done: seq<string>)
    requires forall i :: 0 <= i < |tool| ==> IsInert(tool[i])
    ensures Split(Guard(tool) + s, done, [], Open) == Split(s, done, Guard(tool), Open)
  {
    hide Split;
    var a, b := "if command -v " + tool + " ", "/dev/null 2";
    var s3, p3 := ['&'] + ("1" + s), a + ['>'] + b + ['>'];
    var s2 := ['>'] + s3;
    var s1 := ['>'] + (b + s2);
    assert Guard(tool) + s == a + s1 && [] + a == a;
    SplitInert(a, s1, done, [], Open);
    SplitStep('>', b + s2, done, a);
    SplitInert(b, s2, done, a + ['>'], Open);
    SplitStep('>', s3, done, a + ['>'] + b);
    SplitStep('&', "1" + s, done, p3);
    SplitInert("1", s, done, p3 + ['&'], Open);
    assert p3 + ['&'] + "1" == Guard(tool);
  }

  lemma SplitSetup(tool: string, options: string, s: string, done: seq<string>)
    requires forall i :: 0 <= i < |tool| ==> IsInert(tool[i])
    requires forall i :: 0 <= i < |options| ==> IsInert(options[i])
    ensures Split(Setup(tool, options) + s, done, [], Open) == Split(s, done, Setup(tool, options), Open)
  {
    var head, text := "then eval ", tool + " init bash" + options;
    assert Setup(tool, options) + s == head + (("\"$(" + text + ")\"") + s) && [] + head == head;
    SplitInert(head, ("\"$(" + text + ")\"") + s, done, [], Open);
    SplitSubstitution(text, s, done, head);
  }

  function SnippetCommands(tool: string, options: string): seq<string> {
    [Guard(tool), Setup(tool, options), "fi"]
  }

  lemma SnippetParts(tool: string, options: string, s: string)
    ensures Snippet(tool, options) + s == Guard(tool) + ("; " + (Setup(tool, options) + ("; " + ("fi" + s))))
  {
  }

  lemma SplitSnippet(tool: string, options: string, s: string, done: seq<string>)
    requires forall i :: 0 <= i < |tool| ==> IsInert(tool[i])
    requires forall i :: 0 <= i < |options| ==> IsInert(options[i])
    ensures Split(Snippet(tool, options) + s, done, [], Open) ==
            Split(s, done + [Guard(tool), Setup(tool, options)], "fi", Open)
  {
    var guard, setup := Guard(tool), Setup(tool, options);
    assert guard != [] && setup != [];
    hide Split, Guard, Setup, Snippet;
    SnippetParts(tool, options, s);
    SplitGuard(tool, "; " + (setup + ("; " + ("fi" + s))), done);
    SplitSeparator(setup + ("; " + ("fi" + s)), done, guard);
    SplitSetup(tool, options, "; " + ("fi" + s), done + [guard]);
    SplitSeparator("fi" + s, done + [guard], setup);
    assert done + [guard] + [setup] == done + [guard, setup] && [] + "fi" == "fi";
    SplitInert("fi", s, done + [guard, setup], [], Open);
  }

  lemma SnippetIsThree(tool: string, options: string)
    requires forall i :: 0 <= i < |tool| ==> IsInert(tool[i])
    requires forall i :: 0 <= i < |options| ==> IsInert(options[i])
    ensures ReadAs(Snippet(tool, options), SnippetCommands(tool, options))
  {
    hide Split, Guard, Setup, Snippet;
    assert SnippetCommands(tool, options)[..2] == [Guard(tool), Setup(tool, options)];
    forall s, done { SplitSnippet(tool, options, s, done); }
  }

  // ----- the whole command

  function Flat(pieces: seq<seq<string>>): seq<string> {
    if pieces == [] then [] else pieces[0] + Flat(pieces[1..])
  }

  ghost predicate AllReadAs(parts: seq<string>, pieces: seq<seq<string>>) {
    |parts| == |pieces| && forall i :: 0 <= i < |parts| ==> ReadAs(parts[i], pieces[i])
  }

  lemma {:induction false} SplitParts(parts: seq<string>, pieces: seq<seq<string>>, done: seq<string>)
    requires AllReadAs(parts, pieces)
    ensures Split(JoinAll(parts, "; "), done, [], Open) == Some(done + Flat(pieces))
    decreases |parts|
  {
    if parts == [] {
      assert done + [] == done;
    } else {
      var part, mine, rest := parts[0], pieces[0], JoinAll(parts[1..], "; ");
      var n := |mine| - 1;
      assert ReadAs(part, mine) && mine[..n] + [mine[n]] == mine;
      if |parts| == 1 {
        assert part + "" == part && pieces[1..] == [] && Split(part + "", done, [], Open).Some?;
        assert done + mine[..n] + [mine[n]] == done + (mine + []);
      } else {
        assert JoinAll(parts, "; ") == part + ("; " + rest);
        SplitSeparator(rest, done + mine[..n], mine[n]);
        assert done + mine[..n] + [mine[n]] == done + mine;
        SplitParts(parts[1..], pieces[1..], done + mine);
        assert done + mine + Flat(pieces[1..]) == done + Flat(pieces);
      }
    }
  }

  lemma {:induction false} FlatConcat(a: seq<seq<string>>, b: seq<seq<string>>)
    ensures Flat(a + b) == Flat(a) + Flat(b)
  {
    if a == [] {
      assert a + b == b;
    } else {
      assert (a + b)[1..] == a[1..] + b;
      FlatConcat(a[1..], b);
    }
  }

  function Each(commands: seq<string>): seq<seq<string>> {
    seq(|commands|, i requires 0 <= i < |commands| => [commands[i]])
  }

  lemma {:induction false} FlatEach(commands: seq<string>)
    ensures Flat(Each(commands)) == commands
  {
    if commands != [] {
      assert Each(commands)[1..] == Each(commands[1..]);
      FlatEach(commands[1..]);
    }
  }

  /** The three tools, as the shell sees their commands. */
  const SNIPPET_PIECES: seq<seq<string>> := [
    SnippetCommands("starship", ""), SnippetCommands("zoxide", ""), SnippetCommands("atuin", " --disable-up-arrow")
  ]

  lemma SnippetsAreRead()
    ensures AllReadAs(SNIPPETS, SNIPPET_PIECES)
  {
    SnippetIsThree("starship", "");
    SnippetIsThree("zoxide", "");
    SnippetIsThree("atuin", " --disable-up-arrow");
  }

  lemma {:induction false} NulIsKept(raw: string)
    requires '\0' in raw
    ensures '\0' in ShellQuote(raw)
  {
    var n :| 0 <= n < |raw| && raw[n] == '\0';
    assert raw == raw[..n] + ("\0" + raw[n + 1..]);
    ReplaceConcat(raw[..n], "\0" + raw[n + 1..], QUOTE, QUOTED_QUOTE);
    ReplaceConcat("\0", raw[n + 1..], QUOTE, QUOTED_QUOTE);
    ReplaceOne('\0', QUOTE, QUOTED_QUOTE);
    assert "\0" == ['\0'];
  }

  lemma {:induction false} JoinedHolds(parts: seq<string>, separator: string, i: nat, c: char)
    requires i < |parts| && c in parts[i]
    ensures c in JoinAll(parts, separator)
    decreases |parts|
  {
    if |parts| > 1 && i > 0 { JoinedHolds(parts[1..], separator, i - 1, c); }
  }

  /** Every value that is quoted in the pane's command. */
  function Values(configDir: Option<string>, env: map<string, string>, order: seq<string>, deck: string,
                  args: seq<string>): seq<string>
    requires forall i :: 0 <= i < |order| ==> order[i] in env
  {
    (if configDir.Some? then [configDir.value] else []) +
    seq(|order|, i requires 0 <= i < |order| => env[order[i]]) + [deck] + args
  }

  function ConfigExport(configDir: Option<string>): seq<string> {
    if configDir.Some? then ["export ZELLIJ_CONFIG_DIR=" + ShellQuote(configDir.value)] else []
  }

  function Exports(env: map<string, string>, order: seq<string>): seq<string>
    requires forall i :: 0 <= i < |order| ==> order[i] in env
  {
    seq(|order|, i requires 0 <= i < |order| => Export(order[i], env[order[i]]))
  }

  /** The commands a pane is meant to run: the exports, the three tools and the deck. */
  function PaneCommands(configDir: Option<string>, env: map<string, string>, order: seq<string>, deck: string,
                        args: seq<string>): seq<string>
    requires forall i :: 0 <= i < |order| ==> order[i] in env
  {
    ConfigExport(configDir) + Exports(env, order) + Flat(SNIPPET_PIECES) + [Exec(deck, args)]
  }

  lemma ConfigIsRead(configDir: Option<string>)
    requires configDir.Some? ==> NulFree(configDir.value)
    ensures AllReadAs(ConfigExport(configDir), Each(ConfigExport(configDir)))
  {
    hide Split, ReadAs;
    if configDir.Some? {
      ExportIsOne("ZELLIJ_CONFIG_DIR", configDir.value);
      assert "export " + "ZELLIJ_CONFIG_DIR" + "=" == "export ZELLIJ_CONFIG_DIR=";
    }
  }

  lemma ExportsAreRead(env: map<string, string>, order: seq<string>)
    requires forall i :: 0 <= i < |order| ==> order[i] in env && NulFree(env[order[i]])
    ensures AllReadAs(Exports(env, order), Each(Exports(env, order)))
  {
    hide Split, ReadAs;
    forall i | 0 <= i < |order| ensures ReadAs(Exports(env, order)[i], [Exports(env, order)[i]]) {
      ShellNameIsPlain(order[i]);
      ExportIsOne(ShellName(order[i]), env[order[i]]);
    }
  }

  lemma PartsAreRead(
    configDir: Option<string>, env: map<string, string>, order: seq<string>, deck: string, args: seq<string>)
    requires forall i :: 0 <= i < |order| ==> order[i] in env
    requires AllNulFree(Values(configDir, env, order, deck, args))
    ensures AllReadAs(PaneParts(configDir, env, order, deck, args),
                      Each(ConfigExport(configDir)) + Each(Exports(env, order)) + SNIPPET_PIECES + [[Exec(deck, args)]])
  {
    ValuesInOrder(configDir, env, order, deck, args);
    hide Split, ReadAs, Snippet, SnippetCommands, ConfigExport, Exports, Exec, Values;
    ExecIsOne(deck, args);
    SnippetsAreRead();
    ConfigIsRead(configDir);
    ExportsAreRead(env, order);
    PaneInParts(configDir, env, order, deck, args);
  }

  lemma ValuesInOrder(
    configDir: Option<string>, env: map<string, string>, order: seq<string>, deck: string, args: seq<string>)
    requires forall i :: 0 <= i < |order| ==> order[i] in env
    ensures AllNulFree(Values(configDir, env, order, deck, args)) <==>
            && (configDir.Some? ==> NulFree(configDir.value))
            && (forall i :: 0 <= i < |order| ==> NulFree(env[order[i]]))
            && NulFree(deck) && AllNulFree(args)
  {
    hide NulFree;
    var values := Values(configDir, env, order, deck, args);
    var n := if configDir.Some? then 1 else 0;
    if AllNulFree(values) {
      assert configDir.Some? ==> values[0] == configDir.value;
      assert forall i :: 0 <= i < |order| ==> values[n + i] == env[order[i]];
      assert values[n + |order|] == deck;
      assert forall i :: 0 <= i < |args| ==> values[n + |order| + 1 + i] == args[i];
    }
  }

  lemma PaneInParts(
    configDir: Option<string>, env: map<string, string>, order: seq<string>, deck: string, args: seq<string>)
    requires forall i :: 0 <= i < |order| ==> order[i] in env
    ensures PaneParts(configDir, env, order, deck, args) ==
            ConfigExport(configDir) + Exports(env, order) + SNIPPETS + [Exec(deck, args)]
  {
  }

  lemma FlatParts(a: seq<string>, b: seq<string>, c: seq<seq<string>>, last: string)
    ensures Flat(Each(a) + Each(b) + c + [[last]]) == a + b + Flat(c) + [last]
  {
    FlatConcat(Each(a) + Each(b) + c, [[last]]);
    FlatConcat(Each(a) + Each(b), c);
    FlatConcat(Each(a), Each(b));
    FlatEach(a);
    FlatEach(b);
    assert Flat([[last]]) == [last] + Flat([]);
  }

  /** A NUL in a value is a NUL in the command. */
  lemma NulReachesTheCommand(
    configDir: Option<string>, env: map<string, string>, order: seq<string>, deck: string, args: seq<string>)
    requires forall i :: 0 <= i < |order| ==> order[i] in env
    requires !AllNulFree(Values(configDir, env, order, deck, args))
    ensures '\0' in PaneCommand(configDir, env, order, deck, args)
  {
    ValuesInOrder(configDir, env, order, deck, args);
    PaneInParts(configDir, env, order, deck, args);
    var parts := PaneParts(configDir, env, order, deck, args);
    var n := |ConfigExport(configDir)|;
    if configDir.Some? && !NulFree(configDir.value) {
      NulIsKept(configDir.value);
      JoinedHolds(parts, "; ", 0, '\0');
    } else if i :| 0 <= i < |order| && !NulFree(env[order[i]]) {
      NulIsKept(env[order[i]]);
      assert parts[n + i] == Exports(env, order)[i];
      JoinedHolds(parts, "; ", n + i, '\0');
    } else {
      var words := [deck] + args;
      NulFreeCons(deck, args);
      var i :| 0 <= i < |words| && !NulFree(words[i]);
      NulIsKept(words[i]);
      assert '\0' in Quoted(words)[i];
      JoinedHolds(Quoted(words), " ", i, '\0');
      assert parts[|parts| - 1] == Exec(deck, args);
      JoinedHolds(parts, "; ", |parts| - 1, '\0');
    }
  }

  /** Whatever the values hold, no quote, `;` or line feed of theirs ends a command early or
      begins another one: the shell runs the exports, the three tools and the deck, in this
      order and nothing else. It reads no command at all exactly when some value holds a NUL. */
  lemma PaneRunsItsCommands(
    configDir: Option<string>, env: map<string, string>, order: seq<string>, deck: string, args: seq<string>)
    requires forall i :: 0 <= i < |order| ==> order[i] in env
    ensures Commands(PaneCommand(configDir, env, order, deck, args)) ==
            if AllNulFree(Values(configDir, env, order, deck, args))
              then Some(PaneCommands(configDir, env, order, deck, args)) else None
  {
    hide Split, Values, PaneParts, ReadAs, Flat, Each, ConfigExport, Exports, Exec, AllNulFree;
    if AllNulFree(Values(configDir, env, order, deck, args)) {
      var commands := PaneCommands(configDir, env, order, deck, args);
      assert [] + commands == commands;
      PartsAreRead(configDir, env, order, deck, args);
      SplitParts(PaneParts(configDir, env, order, deck, args),
                 Each(ConfigExport(configDir)) + Each(Exports(env, order)) + SNIPPET_PIECES + [[Exec(deck, args)]], []);
      FlatParts(ConfigExport(configDir), Exports(env, order), SNIPPET_PIECES, Exec(deck, args));
    } else {
      NulReachesTheCommand(configDir, env, order, deck, args);
      NulIsRefused(PaneCommand(configDir, env, order, deck, args), [], [], Open);
    }
  }

  /** Each of these commands, taken into words, says what it is meant to say. */
  lemma CommandsAreRead(
    configDir: Option<string>, env: map<string, string>, order: seq<string>, deck: string, args: seq<string>)
    requires forall i :: 0 <= i < |order| ==> order[i] in env
    requires AllNulFree(Values(configDir, env, order, deck, args))
    ensures configDir.Some? ==>
              Words(ConfigExport(configDir)[0]) == Some(["export", "ZELLIJ_CONFIG_DIR=" + configDir.value])
    ensures forall i :: 0 <= i < |order| ==>
              Words(Exports(env, order)[i]) == Some(["export", ShellName(order[i]) + "=" + env[order[i]]])
    ensures Words(Exec(deck, args)) == Some(["exec", deck] + args)
  {
    ValuesInOrder(configDir, env, order, deck, args);
    ExecRoundTrip(deck, args);
    if configDir.Some? {
      ConfigDirRoundTrip(configDir.value);
    }
    forall i | 0 <= i < |order| {
      ExportRoundTrip(order[i], env[order[i]]);
    }
  }

  lemma ConfigDirRoundTrip(dir: string)
    requires NulFree(dir)
    ensures Words("export ZELLIJ_CONFIG_DIR=" + ShellQuote(dir)) == Some(["export", "ZELLIJ_CONFIG_DIR=" + dir])
  {
    var key := "ZELLIJ_CONFIG_DIR";
    assert "export " + key + "=" == "export ZELLIJ_CONFIG_DIR=" && key + "=" == "ZELLIJ_CONFIG_DIR=";
    ShellNameKeeps(key);
    hide Words, ShellName, ShellQuote;
    ExportRoundTrip(key, dir);
  }

  lemma {:induction false} ShellNameKeeps(raw: string)
    requires forall i :: 0 <= i < |raw| ==> IsNameChar(raw[i])
    ensures ShellName(raw) == raw
  {
    if raw != [] {
      ShellNameKeeps(raw[1..]);
      assert raw == [raw[0]] + raw[1..];
    }
  }
}
