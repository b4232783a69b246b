/** Launching a run in a terminal pane: an argument list is quoted for the shell, and the shell
    command is quoted again for the KDL layout that starts it. The readers below follow the
    "String" section of the KDL 1.0.0 specification and sections 2.2 and 2.3 of the Shell
    Command Language in POSIX.1-2017; where those would do more than collect characters
    (expansions, operators, comments, escapes not written here) they give nothing. */
module Launch {
  import opened Wrappers

  // ----- replacing a character

  /** `str::replace` of a single character. */
  function Replace(s: string, c: char, with: string): string {
    if s == [] then [] else (if s[0] == c then with else [s[0]]) + Replace(s[1..], c, with)
  }

  // ----- quoting

  const QUOTE: char := '\''
  const QUOTED_QUOTE: string := "'\"'\"'"

  /** `shell_quote` */
  function ShellQuote(raw: string): string {
    "'" + Replace(raw, QUOTE, QUOTED_QUOTE) + "'"
  }

  /** `kdl_quote`: backslashes, then double quotes, then line feeds. */
  function KdlQuote(raw: string): string {
    "\"" + Replace(Replace(Replace(raw, '\\', "\\\\"), '"', "\\\""), '\n', "\\n") + "\""
  }

  /** `parts.join(separator)` */
  function JoinAll(parts: seq<string>, separator: string): string {
    if parts == [] then []
    else if |parts| == 1 then parts[0]
    else parts[0] + separator + JoinAll(parts[1..], separator)
  }

  function Quoted(words: seq<string>): seq<string> {
    seq(|words|, i requires 0 <= i < |words| => ShellQuote(words[i]))
  }

  /** `shell_join`, program and arguments as one list. */
  function ShellJoin(words: seq<string>): string {
    JoinAll(Quoted(words), " ")
  }

  // ----- reading KDL strings

  function Unescape(c: char): Option<char> {
    if c == 'n' then Some('\n')
    else if c == 'r' then Some('\r')
    else if c == 't' then Some('\t')
    else if c == '\\' || c == '/' || c == '"' then Some(c)
    else if c == 'b' then Some('\U{0008}')
    else if c == 'f' then Some('\U{000C}')
    else None
  }

  /** The rest of a string token: what it stands for, and what follows it. */
  function KdlRest(s: string, read: string): Option<(string, string)>
    decreases |s|
  {
    if s == [] then None
    else if s[0] == '"' then Some((read, s[1..]))
    else if s[0] != '\\' then KdlRest(s[1..], read + [s[0]])
    else if |s| == 1 || Unescape(s[1]).None? then None
    else KdlRest(s[2..], read + [Unescape(s[1]).value])
  }

  function KdlString(s: string): Option<(string, string)> {
    if s == [] || s[0] != '"' then None else KdlRest(s[1..], "")
  }

  // ----- reading shell words

  datatype Mode = Plain | Single | Double

  /** Characters that do more than stand for themselves outside quotes. */
  predicate IsSpecial(c: char) {
    c in "|&;<>()$`\\*?[]#~!{}\n"
  }

  predicate IsBlankChar(c: char) {
    c == ' ' || c == '\t'
  }

  function Finish(words: seq<string>, word: Option<string>): seq<string> {
    if word.Some? then words + [word.value] else words
  }

  function Started(word: Option<string>): string {
    if word.Some? then word.value else ""
  }

  /** Splits into words and removes quotes. A NUL cannot be part of a command. */
  function Lex(s: string, words: seq<string>, word: Option<string>, mode: Mode): Option<seq<string>>
    decreases |s|
  {
    if s == [] then if mode == Plain then Some(Finish(words, word)) else None
    else
      var c, rest := s[0], s[1..];
      if c == '\0' then None
      else
        match mode
        case Single =>
          if c == QUOTE then Lex(rest, words, word, Plain) else Lex(rest, words, Some(Started(word) + [c]), Single)
        case Double =>
          if c == '"' then Lex(rest, words, word, Plain)
          else if c == '$' || c == '`' || c == '\\' then None
          else Lex(rest, words, Some(Started(word) + [c]), Double)
        case Plain =>
          if c == QUOTE then Lex(rest, words, Some(Started(word)), Single)
          else if c == '"' then Lex(rest, words, Some(Started(word)), Double)
          else if IsBlankChar(c) then Lex(rest, Finish(words, word), None, Plain)
          else if IsSpecial(c) then None
          else Lex(rest, words, Some(Started(word) + [c]), Plain)
  }

  function Words(s: string): Option<seq<string>> {
    Lex(s, [], None, Plain)
  }

  // ----- KDL round trip

  function Escaped(c: char): string {
    if c == '\\' then "\\\\" else if c == '"' then "\\\"" else if c == '\n' then "\\n" else [c]
  }

  function EscapeAll(raw: string): string {
    if raw == [] then [] else Escaped(raw[0]) + EscapeAll(raw[1..])
  }

  lemma {:induction false} ReplaceConcat(a: string, b: string, c: char, with: string)
    ensures Replace(a + b, c, with) == Replace(a, c, with) + Replace(b, c, with)
  {
    if a == [] {
      assert a + b == b;
    } else {
      assert (a + b)[1..] == a[1..] + b;
      ReplaceConcat(a[1..], b, c, with);
    }
  }

  lemma ReplaceOne(x: char, c: char, with: string)
    ensures Replace([x], c, with) == if x == c then with else [x]
  {
    assert [x][1..] == [];
  }

  /** No pass touches what an earlier one inserted, so three passes are one. */
  lemma OneCharacter(x: char)
    ensures Replace(Replace(Replace([x], '\\', "\\\\"), '"', "\\\""), '\n', "\\n") == Escaped(x)
  {
    ReplaceOne(x, '\\', "\\\\");
    ReplaceOne(x, '"', "\\\"");
    ReplaceOne(x, '\n', "\\n");
    if x == '\\' {
      assert "\\\\" == ['\\'] + ['\\'];
      ReplaceConcat(['\\'], ['\\'], '"', "\\\"");
      ReplaceConcat(['\\'], ['\\'], '\n', "\\n");
    }
    if x == '"' {
      assert "\\\"" == ['\\'] + ['"'];
      ReplaceOne('\\', '\n', "\\n");
      ReplaceConcat(['\\'], ['"'], '\n', "\\n");
    }
  }

  lemma {:induction false} ThreePassesAreOne(raw: string)
    ensures Replace(Replace(Replace(raw, '\\', "\\\\"), '"', "\\\""), '\n', "\\n") == EscapeAll(raw)
  {
    if raw != [] {
      var x, rest := [raw[0]], raw[1..];
      assert raw == x + rest;
      ThreePassesAreOne(rest);
      OneCharacter(raw[0]);
      ReplaceConcat(x, rest, '\\', "\\\\");
      var x1, r1 := Replace(x, '\\', "\\\\"), Replace(rest, '\\', "\\\\");
      ReplaceConcat(x1, r1, '"', "\\\"");
      ReplaceConcat(Replace(x1, '"', "\\\""), Replace(r1, '"', "\\\""), '\n', "\\n");
    }
  }

  lemma {:induction false} EscapedReadsBack(raw: string, read: string, rest: string)
    ensures KdlRest(EscapeAll(raw) + "\"" + rest, read) == Some((read + raw, rest))
    decreases |raw|
  {
    var s := EscapeAll(raw) + "\"" + rest;
    if raw == [] {
      assert s == "\"" + rest && s[1..] == rest && read + raw == read;
    } else {
      var tail := EscapeAll(raw[1..]) + "\"" + rest;
      assert s == Escaped(raw[0]) + tail;
      assert s[|Escaped(raw[0])|..] == tail;
      EscapedReadsBack(raw[1..], read + [raw[0]], rest);
      assert read + [raw[0]] + raw[1..] == read + raw;
    }
  }

  /** Every string survives KDL quoting, whatever follows the quoted string. */
  lemma KdlRoundTrip(raw: string, rest: string)
    ensures KdlString(KdlQuote(raw) + rest) == Some((raw, rest))
  {
    ThreePassesAreOne(raw);
    EscapedReadsBack(raw, "", rest);
    assert (KdlQuote(raw) + rest)[1..] == EscapeAll(raw) + "\"" + rest;
    assert "" + raw == raw;
  }

  // ----- shell round trip

  predicate NulFree(s: string) {
    '\0' !in s
  }

  /** A quote inside quotes: out, quoted, and in again. */
  lemma LexQuotedQuote(s: string, words: seq<string>, word: string)
    ensures Lex(QUOTED_QUOTE + s, words, Some(word), Single) == Lex(s, words, Some(word + [QUOTE]), Single)
  {
    var t := QUOTED_QUOTE + s;
    assert t[0] == QUOTE && t[1..][0] == '"' && t[2..][0] == QUOTE && t[3..][0] == '"' && t[4..][0] == QUOTE;
    assert t[1..][1..] == t[2..] && t[2..][1..] == t[3..] && t[3..][1..] == t[4..] && t[4..][1..] == s;
    assert Lex(t, words, Some(word), Single) == Lex(t[1..], words, Some(word), Plain);
    assert Lex(t[1..], words, Some(word), Plain) == Lex(t[2..], words, Some(word), Double);
    assert Lex(t[2..], words, Some(word), Double) == Lex(t[3..], words, Some(word + [QUOTE]), Double);
    assert Lex(t[3..], words, Some(word + [QUOTE]), Double) == Lex(t[4..], words, Some(word + [QUOTE]), Plain);
  }

  lemma {:induction false} LexReplaced(raw: string, s: string, words: seq<string>, word: string)
    ensures Lex(Replace(raw, QUOTE, QUOTED_QUOTE) + "'" + s, words, Some(word), Single) ==
            if NulFree(raw) then Lex(s, words, Some(word + raw), Plain) else None
    decreases |raw|
  {
    var t := Replace(raw, QUOTE, QUOTED_QUOTE) + "'" + s;
    if raw == [] {
      assert t == "'" + s && t[1..] == s && word + raw == word;
    } else {
      var rest := Replace(raw[1..], QUOTE, QUOTED_QUOTE) + "'" + s;
      assert raw == [raw[0]] + raw[1..] && word + [raw[0]] + raw[1..] == word + raw;
      if raw[0] == QUOTE {
        assert t == QUOTED_QUOTE + rest;
        LexQuotedQuote(rest, words, word);
      } else {
        assert t == [raw[0]] + rest && t[1..] == rest;
      }
      LexReplaced(raw[1..], s, words, word + [raw[0]]);
    }
  }

  /** A quoted string is read as part of one word, exactly; one with a NUL is not read. */
  lemma LexQuoted(raw: string, s: string, words: seq<string>, word: Option<string>)
    ensures Lex(ShellQuote(raw) + s, words, word, Plain) ==
            if NulFree(raw) then Lex(s, words, Some(Started(word) + raw), Plain) else None
  {
    var t := ShellQuote(raw) + s;
    assert t[1..] == Replace(raw, QUOTE, QUOTED_QUOTE) + "'" + s;
    LexReplaced(raw, s, words, Started(word));
  }

  ghost predicate AllNulFree(words: seq<string>) {
    forall i :: 0 <= i < |words| ==> NulFree(words[i])
  }

  lemma NulFreeCons(word: string, rest: seq<string>)
    ensures AllNulFree([word] + rest) <==> NulFree(word) && AllNulFree(rest)
  {
    var all := [word] + rest;
    assert all[0] == word && forall i :: 0 <= i < |rest| ==> all[i + 1] == rest[i];
  }

  lemma JoinedCons(word: string, rest: seq<string>)
    ensures ShellJoin([word]) == ShellQuote(word) + ""
    ensures rest != [] ==> ShellJoin([word] + rest) == ShellQuote(word) + (" " + ShellJoin(rest))
  {
    assert Quoted([word]) == [ShellQuote(word)] && ShellQuote(word) + "" == ShellQuote(word);
    assert Quoted([word] + rest)[1..] == Quoted(rest);
  }

  lemma LexWord(word: string, rest: string, words: seq<string>)
    ensures Lex(ShellQuote(word) + (" " + rest), words, None, Plain) ==
            if NulFree(word) then Lex(rest, words + [word], None, Plain) else None
    ensures Lex(ShellQuote(word) + "", words, None, Plain) == if NulFree(word) then Some(words + [word]) else None
  {
    LexQuoted(word, " " + rest, words, None);
    LexQuoted(word, "", words, None);
    assert Started(None) + word == word && (" " + rest)[1..] == rest;
  }

  lemma {:induction false} LexJoined(args: seq<string>, words: seq<string>)
    ensures Lex(ShellJoin(args), words, None, Plain) == if AllNulFree(args) then Some(words + args) else None
    decreases |args|
  {
    if args == [] {
      assert Quoted(args) == [] && words + args == words;
    } else {
      var word, rest := args[0], args[1..];
      assert args == [word] + rest && words + [word] + rest == words + args;
      JoinedCons(word, rest);
      NulFreeCons(word, rest);
      LexWord(word, ShellJoin(rest), words);
      if rest != [] { LexJoined(rest, words + [word]); } else { assert args == [word]; }
    }
  }

  // ----- the commands

  predicate IsNameChar(c: char) {
    '0' <= c <= '9' || 'A' <= c <= 'Z' || 'a' <= c <= 'z' || c == '_'
  }

  /** `shell_name` */
  function ShellName(raw: string): string {
    if raw == [] then [] else (if IsNameChar(raw[0]) then [raw[0]] else []) + ShellName(raw[1..])
  }

  function Export(key: string, value: string): string {
    "export " + ShellName(key) + "=" + ShellQuote(value)
  }

  function Exec(deck: string, args: seq<string>): string {
    "exec " + ShellJoin([deck] + args)
  }

  /** Sets up a shell tool when it is installed. */
  function Snippet(tool: string, options: string): string {
    "if command -v " + tool + " >/dev/null 2>&1; then eval \"$(" + tool + " init bash" + options + ")\"; fi"
  }

  /** `tooling_profile_snippets` */
  const SNIPPETS: seq<string> := [
    Snippet("starship", ""), Snippet("zoxide", ""), Snippet("atuin", " --disable-up-arrow")
  ]

  /** The parts of `build_pane_shell_command` before the last; `order` is the order of the
      environment's keys. */
  function PanePreludeParts(
    configDir: Option<string>, env: map<string, string>, order: seq<string>): (parts: seq<string>)
    requires forall i :: 0 <= i < |order| ==> order[i] in env
    ensures parts != []
  {
    (if configDir.Some? then ["export ZELLIJ_CONFIG_DIR=" + ShellQuote(configDir.value)] else []) +
    seq(|order|, i requires 0 <= i < |order| => Export(order[i], env[order[i]])) +
    SNIPPETS
  }

  function PaneParts(configDir: Option<string>, env: map<string, string>, order: seq<string>, deck: string,
                     args: seq<string>): seq<string>
    requires forall i :: 0 <= i < |order| ==> order[i] in env
  {
    PanePreludeParts(configDir, env, order) + [Exec(deck, args)]
  }

  // ----- what the pane runs

  lemma {:induction false} LexPlainWord(name: string, s: string, words: seq<string>, word: Option<string>)
    requires name != [] || word.Some?
    requires forall i :: 0 <= i < |name| ==> IsNameChar(name[i]) || name[i] == '='
    ensures Lex(name + s, words, word, Plain) == Lex(s, words, Some(Started(word) + name), Plain)
    decreases |name|
  {
    if name == [] {
      assert name + s == s && Started(word) + name == word.value;
    } else {
      var longer := Some(Started(word) + [name[0]]);
      assert (name + s)[1..] == name[1..] + s && (name + s)[0] == name[0];
      LexPlainWord(name[1..], s, words, longer);
      assert Started(longer) + name[1..] == Started(word) + name;
    }
  }

  lemma {:induction false} ShellNameIsPlain(raw: string)
    ensures forall i :: 0 <= i < |ShellName(raw)| ==> IsNameChar(ShellName(raw)[i])
  {
    if raw != [] { ShellNameIsPlain(raw[1..]); }
  }

  /** A command word and a blank in front. */
  lemma LexCommand(command: string, s: string)
    requires command != [] && forall i :: 0 <= i < |command| ==> IsNameChar(command[i])
    ensures Lex(command + " " + s, [], None, Plain) == Lex(s, [command], None, Plain)
  {
    var t := " " + s;
    assert command + " " + s == command + t && t[1..] == s;
    LexPlainWord(command, t, [], None);
    assert Started(None) + command == command && [] + [command] == [command];
  }

  /** Every environment value reaches the shell exactly, under the name that is left of its key
      once other characters are dropped. */
  lemma ExportRoundTrip(key: string, value: string)
    ensures Words(Export(key, value)) == if NulFree(value) then Some(["export", ShellName(key) + "=" + value]) else None
  {
    var name := ShellName(key) + "=";
    assert Export(key, value) == "export" + " " + (name + ShellQuote(value));
    LexCommand("export", name + ShellQuote(value));
    ShellNameIsPlain(key);
    LexAssignment(name, value);
    assert ["export"] + [name + value] == ["export", ShellName(key) + "=" + value];
  }

  lemma LexAssignment(name: string, value: string)
    requires name != [] && forall i :: 0 <= i < |name| ==> IsNameChar(name[i]) || name[i] == '='
    ensures Lex(name + ShellQuote(value), ["export"], None, Plain) ==
            if NulFree(value) then Some(["export"] + [name + value]) else None
  {
    LexPlainWord(name, ShellQuote(value), ["export"], None);
    assert Started(None) + name == name;
    LexLast(name, value);
  }

  lemma LexLast(name: string, value: string)
    ensures Lex(ShellQuote(value), ["export"], Some(name), Plain) ==
            if NulFree(value) then Some(["export"] + [name + value]) else None
  {
    LexQuoted(value, "", ["export"], Some(name));
    assert ShellQuote(value) + "" == ShellQuote(value);
  }

  lemma {:induction false} JoinSnoc(parts: seq<string>, last: string, separator: string)
    ensures JoinAll(parts + [last], separator) ==
            (if parts == [] then [] else JoinAll(parts, separator) + separator) + last
    decreases |parts|
  {
    if parts == [] {
      assert [] + [last] == [last];
    } else {
      JoinSnoc(parts[1..], last, separator);
      assert (parts + [last])[1..] == parts[1..] + [last];
    }
  }

  function PaneCommand(
    configDir: Option<string>, env: map<string, string>, order: seq<string>, deck: string, args: seq<string>): string
    requires forall i :: 0 <= i < |order| ==> order[i] in env
  {
    JoinAll(PaneParts(configDir, env, order, deck, args), "; ")
  }

  /** What comes before the last part of the pane's command. */
  function PanePrelude(configDir: Option<string>, env: map<string, string>, order: seq<string>): string
    requires forall i :: 0 <= i < |order| ==> order[i] in env
  {
    JoinAll(PanePreludeParts(configDir, env, order), "; ") + "; "
  }

  /** The nested round trip. Whatever follows in the layout, undoing the KDL quoting gives the
      pane's command back, and the shell reads its last part as `exec` with exactly the program
      and arguments that were asked for: always when they are free of NULs, and only then. */
  lemma LaunchRoundTrip(
    configDir: Option<string>, env: map<string, string>, order: seq<string>, deck: string, args: seq<string>,
    rest: string)
    requires forall i :: 0 <= i < |order| ==> order[i] in env
    ensures var command := PaneCommand(configDir, env, order, deck, args);
      && KdlString(KdlQuote(command) + rest) == Some((command, rest))
      && command == PanePrelude(configDir, env, order) + Exec(deck, args)
    ensures Words(Exec(deck, args)) == if NulFree(deck) && AllNulFree(args) then Some(["exec", deck] + args) else None
  {
    KdlRoundTrip(PaneCommand(configDir, env, order, deck, args), rest);
    JoinSnoc(PanePreludeParts(configDir, env, order), Exec(deck, args), "; ");
    ExecRoundTrip(deck, args);
  }

  lemma ExecRoundTrip(deck: string, args: seq<string>)
    ensures Words(Exec(deck, args)) == if NulFree(deck) && AllNulFree(args) then Some(["exec", deck] + args) else None
  {
    var words := [deck] + args;
    assert Exec(deck, args) == "exec" + " " + ShellJoin(words);
    LexCommand("exec", ShellJoin(words));
    LexJoined(words, ["exec"]);
    assert ["exec"] + words == ["exec", deck] + args;
    NulFreeCons(deck, args);
  }

  /** `shell_join` on its own: exactly the words that went in. */
  lemma ShellRoundTrip(words: seq<string>)
    ensures Words(ShellJoin(words)) == Some(words) <==> AllNulFree(words)
  {
    LexJoined(words, []);
    assert [] + words == words;
  }
}
