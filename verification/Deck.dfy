/** What the deck is asked to launch, as an argument list that can be taken apart again, so that
    the shell's words determine what was asked for. */
module Deck {
  import opened Wrappers
  import opened Launch
  import Text

  // ----- the request and its arguments

  datatype Kind = Workflow | Research | Review | Marbles

  datatype Runtime = Headless | Terminal | Visible

  datatype Request = Request(
    kind: Kind, agent: string, prompt: string, runtime: Runtime, root: Option<string>,
    env: map<string, string>, count: Option<nat>, depth: Option<nat>)

  function KindLabel(kind: Kind): string {
    match kind
    case Workflow => "workflow"
    case Research => "research"
    case Review => "review"
    case Marbles => "marbles"
  }

  function RuntimeLabel(runtime: Runtime): string {
    match runtime
    case Headless => "headless"
    case Terminal => "terminal"
    case Visible => "visible"
  }

  /** Characters with the Unicode White_Space property. */
  predicate IsWhitespace(c: char) {
    || '\U{0009}' <= c <= '\U{000D}' || c == ' ' || c == '\U{0085}' || c == '\U{00A0}' || c == '\U{1680}'
    || '\U{2000}' <= c <= '\U{200A}' || c == '\U{2028}' || c == '\U{2029}' || c == '\U{202F}' || c == '\U{205F}'
    || c == '\U{3000}'
  }

  /** `trim().is_empty()` */
  predicate IsBlank(s: string) {
    forall i :: 0 <= i < |s| ==> IsWhitespace(s[i])
  }

  function OrThree(n: Option<nat>): nat {
    if n.Some? then n.value else 3
  }

  function PromptArgs(prompt: string): seq<string> {
    if IsBlank(prompt) then [] else ["--prompt", prompt]
  }

  function KindArgs(r: Request): seq<string> {
    match r.kind
    case Research => PromptArgs(r.prompt)
    case Marbles =>
      [r.agent, "--count", Text.Decimal(OrThree(r.count)), "--depth", Text.Decimal(OrThree(r.depth))] +
        PromptArgs(r.prompt)
    case _ => [r.agent] + PromptArgs(r.prompt)
  }

  function DeckArgs(r: Request): seq<string> {
    [KindLabel(r.kind)] + KindArgs(r) + ["--runtime", RuntimeLabel(r.runtime)] +
    if r.root.Some? then ["--root", r.root.value] else []
  }

  // ----- reading the arguments back

  /** What a request asks of the deck. Research takes no agent, only the marbles loop takes
      counts, and a blank prompt is none. */
  datatype Launched = Launched(
    kind: Kind, agent: Option<string>, prompt: Option<string>, runtime: Runtime, root: Option<string>,
    loops: Option<(nat, nat)>)

  function Canonical(r: Request): Launched {
    Launched(
      r.kind,
      if r.kind.Research? then None else Some(r.agent),
      if IsBlank(r.prompt) then None else Some(r.prompt),
      r.runtime, r.root,
      if r.kind.Marbles?
      then Some((if r.count.Some? then r.count.value else 3, if r.depth.Some? then r.depth.value else 3)) else None)
  }

  function KindNamed(name: string): Option<Kind> {
    if name == "workflow" then Some(Workflow)
    else if name == "research" then Some(Research)
    else if name == "review" then Some(Review)
    else if name == "marbles" then Some(Marbles)
    else None
  }

  function RuntimeNamed(name: string): Option<Runtime> {
    if name == "headless" then Some(Headless)
    else if name == "terminal" then Some(Terminal)
    else if name == "visible" then Some(Visible)
    else None
  }

  lemma LabelsAreRead(kind: Kind, runtime: Runtime)
    ensures KindNamed(KindLabel(kind)) == Some(kind) && RuntimeNamed(RuntimeLabel(runtime)) == Some(runtime)
  {
    assert |"workflow"| == 8 && |"research"| == 8 && |"review"| == 6 && |"marbles"| == 7;
    assert "workflow"[0] != "research"[0] && |"visible"| != |"headless"| && "headless"[0] != "terminal"[0];
  }

  datatype Options = Options(prompt: Option<string>, runtime: Runtime, root: Option<string>)

  /** `--runtime`, then `--root` if there is one. */
  function DecodeEnd(args: seq<string>, prompt: Option<string>): Option<Options> {
    if |args| < 2 || args[0] != "--runtime" || RuntimeNamed(args[1]).None? then None
    else
      var runtime := RuntimeNamed(args[1]).value;
      if |args| == 2 then Some(Options(prompt, runtime, None))
      else if |args| == 4 && args[2] == "--root" then Some(Options(prompt, runtime, Some(args[3])))
      else None
  }

  function DecodeOptions(args: seq<string>): Option<Options> {
    if |args| >= 2 && args[0] == "--prompt" then DecodeEnd(args[2..], Some(args[1])) else DecodeEnd(args, None)
  }

  function WithOptions(
    kind: Kind, agent: Option<string>, loops: Option<(nat, nat)>, o: Option<Options>): Option<Launched> {
    match o
    case None => None
    case Some(x) => Some(Launched(kind, agent, x.prompt, x.runtime, x.root, loops))
  }

  function Decode(args: seq<string>): Option<Launched> {
    if args == [] then None
    else
      match KindNamed(args[0])
      case Some(Research) => WithOptions(Research, None, None, DecodeOptions(args[1..]))
      case Some(Marbles) =>
        if |args| < 6 || args[2] != "--count" || args[4] != "--depth" then None
        else
          WithOptions(Marbles, Some(args[1]), Some((Text.ParseDecimal(args[3]), Text.ParseDecimal(args[5]))),
                      DecodeOptions(args[6..]))
      case Some(kind) => if |args| < 2 then None else WithOptions(kind, Some(args[1]), None, DecodeOptions(args[2..]))
      case None => None
  }

  function EndArgs(r: Request): seq<string> {
    ["--runtime", RuntimeLabel(r.runtime)] + if r.root.Some? then ["--root", r.root.value] else []
  }

  lemma EndIsRead(r: Request, prompt: Option<string>)
    ensures DecodeEnd(EndArgs(r), prompt) == Some(Options(prompt, r.runtime, r.root))
  {
    LabelsAreRead(r.kind, r.runtime);
  }

  lemma OptionsAreRead(r: Request)
    ensures DecodeOptions(PromptArgs(r.prompt) + EndArgs(r)) == Some(Options(Canonical(r).prompt, r.runtime, r.root))
  {
    var args := PromptArgs(r.prompt) + EndArgs(r);
    EndIsRead(r, Canonical(r).prompt);
    if IsBlank(r.prompt) {
      assert args == EndArgs(r) && "--runtime"[2] != "--prompt"[2];
    } else {
      assert args[2..] == EndArgs(r);
    }
  }

  /** What stands before the prompt. */
  function HeadArgs(r: Request): seq<string> {
    match r.kind
    case Research => [KindLabel(r.kind)]
    case Marbles =>
      [KindLabel(r.kind), r.agent, "--count", Text.Decimal(OrThree(r.count)), "--depth", Text.Decimal(OrThree(r.depth))]
    case _ => [KindLabel(r.kind), r.agent]
  }

  lemma DeckArgsParts(r: Request)
    ensures DeckArgs(r) == HeadArgs(r) + (PromptArgs(r.prompt) + EndArgs(r))
  {
  }

  lemma HeadIsRead(r: Request, rest: seq<string>)
    ensures Decode(HeadArgs(r) + rest) ==
            WithOptions(r.kind, Canonical(r).agent, Canonical(r).loops, DecodeOptions(rest))
  {
    var args := HeadArgs(r) + rest;
    LabelsAreRead(r.kind, r.runtime);
    assert args[|HeadArgs(r)|..] == rest && args[0] == KindLabel(r.kind);
    Text.DecimalRoundTrip(OrThree(r.count));
    Text.DecimalRoundTrip(OrThree(r.depth));
  }

  /** The argument list says everything that was asked for, in a way that can be read back:
      whatever the agent, the prompt and the root are, even if they look like options. */
  lemma DeckRoundTrip(r: Request)
    ensures Decode(DeckArgs(r)) == Some(Canonical(r))
  {
    DeckArgsParts(r);
    HeadIsRead(r, PromptArgs(r.prompt) + EndArgs(r));
    OptionsAreRead(r);
  }

  method PushPrompt(args: seq<string>, prompt: string) returns (more: seq<string>)
    ensures more == args + PromptArgs(prompt)
  {
    more := args;
    if !IsBlank(prompt) {
      more := more + ["--prompt"];
      more := more + [prompt];
    }
  }

  method PushKind(r: Request) returns (args: seq<string>)
    ensures args == [KindLabel(r.kind)] + KindArgs(r)
  {
    args := [KindLabel(r.kind)];
    match r.kind {
      case Research =>
      case Marbles =>
        args := args + [r.agent];
        args := args + ["--count"];
        args := args + [Text.Decimal(OrThree(r.count))];
        args := args + ["--depth"];
        args := args + [Text.Decimal(OrThree(r.depth))];
      case _ =>
        args := args + [r.agent];
    }
    args := PushPrompt(args, r.prompt);
  }

  /** `build_deck_launch_command`: the list can be read back as what was asked for. */
  method BuildDeckArgs(r: Request) returns (args: seq<string>)
    ensures args == DeckArgs(r) && Decode(args) == Some(Canonical(r))
  {
    DeckRoundTrip(r);
    args := PushKind(r);
    args := args + ["--runtime", RuntimeLabel(r.runtime)];
    if r.root.Some? { args := args + ["--root", r.root.value]; }
  }

  /** Two requests have the same argument list exactly when they ask for the same. */
  lemma SameArgsIff(r: Request, q: Request)
    ensures DeckArgs(r) == DeckArgs(q) <==> Canonical(r) == Canonical(q)
  {
    DeckRoundTrip(r);
    DeckRoundTrip(q);
    if Canonical(r) == Canonical(q) {
      DeckArgsParts(r);
      DeckArgsParts(q);
    }
  }

  /** What the shell executes determines the request: the deck, and arguments that say exactly
      what was asked for. */
  lemma ShellRunsTheRequest(deck: string, r: Request)
    requires NulFree(deck) && AllNulFree(DeckArgs(r))
    ensures var words := Words(Exec(deck, DeckArgs(r)));
      && words.Some? && |words.value| >= 2
      && words.value[..2] == ["exec", deck] && Decode(words.value[2..]) == Some(Canonical(r))
  {
    ExecRoundTrip(deck, DeckArgs(r));
    DeckRoundTrip(r);
    assert (["exec", deck] + DeckArgs(r))[2..] == DeckArgs(r);
  }
}
