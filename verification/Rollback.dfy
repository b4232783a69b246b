/** Carrying out a plan of configuration rewrites, and undoing it with the printed copies. */
module Rollback {
  import opened Wrappers
  import Text

  /** A path without a final component has no name. */
  datatype Path = Path(dir: string, name: Option<string>)

  type Files = map<Path, string>

  /** `backup_path` */
  function BackupPath(path: Path, secs: nat, suffix: Option<nat>): Path {
    var name := if path.name.Some? then path.name.value else "danger";
    match suffix
    case Some(n) => Path(path.dir, Some(name + "." + Text.Decimal(secs) + "-" + Text.Decimal(n) + ".bak"))
    case None => Path(path.dir, Some(name + "." + Text.Decimal(secs) + ".bak"))
  }

  const MAX_BACKUPS: nat := 1000

  /** The k-th place tried for a backup. */
  function BackupAt(path: Path, secs: nat, k: nat): Path {
    BackupPath(path, secs, if k == 0 then None else Some(k))
  }

  /** The first free place at or after the k-th, if there is one among the first thousand. */
  function FreeBackup(files: Files, path: Path, secs: nat, k: nat): (r: Option<Path>)
    ensures r.Some? ==> r.value !in files && r.value != path
    decreases MAX_BACKUPS - k
  {
    if k >= MAX_BACKUPS then None
    else if BackupAt(path, secs, k) in files then FreeBackup(files, path, secs, k + 1)
    else
      BackupIsElsewhere(path, secs, k);
      Some(BackupAt(path, secs, k))
  }

  lemma BackupIsElsewhere(path: Path, secs: nat, k: nat)
    ensures BackupAt(path, secs, k) != path
  {
    if path.name.Some? { assert |BackupAt(path, secs, k).name.value| > |path.name.value|; }
  }

  /** An action with new contents is one that is planned; all others are skipped. */
  datatype Action = Action(path: Path, newContents: Option<string>)

  datatype Outcome = Outcome(path: Path, backup: Option<Path>)

  // ----- the effect on the files

  function BackedUp(files: Files, path: Path, backup: Path, contents: string): Files {
    (if path in files then files[backup := files[path]] else files)[path := contents]
  }

  function ActionEffect(files: Files, a: Action, secs: nat): (Files, Outcome) {
    match a.newContents
    case None => (files, Outcome(a.path, None))
    case Some(contents) =>
      match FreeBackup(files, a.path, secs, 0)
      case None => (files, Outcome(a.path, None))
      case Some(backup) => (BackedUp(files, a.path, backup, contents), Outcome(a.path, Some(backup)))
  }

  /** The clock may move between any two writes. */
  function After(files: Files, actions: seq<Action>, times: nat -> nat): Files {
    if actions == [] then files
    else
      var n := |actions| - 1;
      ActionEffect(After(files, actions[..n], times), actions[n], times(n)).0
  }

  function Outcomes(files: Files, actions: seq<Action>, times: nat -> nat): seq<Outcome> {
    if actions == [] then []
    else
      var n := |actions| - 1;
      Outcomes(files, actions[..n], times) +
      [ActionEffect(After(files, actions[..n], times), actions[n], times(n)).1]
  }

  // ----- carrying it out

  class Disk {
    var files: Files

    constructor (files: Files)
      ensures this.files == files
    {
      this.files := files;
    }

    /** `write_with_timestamped_backup`, on a disk without I/O errors. */
    method WriteWithBackup(path: Path, contents: string, secs: nat) returns (backup: Option<Path>)
      modifies this
      ensures backup == FreeBackup(old(files), path, secs, 0)
      ensures files == if backup.Some? then BackedUp(old(files), path, backup.value, contents) else old(files)
    {
      var candidate, counter := BackupPath(path, secs, None), 1;
      while candidate in files
        invariant 1 <= counter <= MAX_BACKUPS && candidate == BackupAt(path, secs, counter - 1)
        invariant files == old(files) && FreeBackup(files, path, secs, counter - 1) == FreeBackup(files, path, secs, 0)
        decreases MAX_BACKUPS - counter
      {
        candidate := BackupPath(path, secs, Some(counter));
        counter := counter + 1;
        if counter > MAX_BACKUPS { return None; }
      }
      BackupIsElsewhere(path, secs, counter - 1);
      if path in files { files := files[candidate := files[path]]; }
      files := files[path := contents];
      return Some(candidate);
    }

    /** `execute_plan`: refuses without confirmation, otherwise carries out every action. */
    method ExecutePlan(actions: seq<Action>, confirmed: bool, times: nat -> nat) returns (r: Result<seq<Outcome>>)
      modifies this
      ensures r.Ok? <==> confirmed
      ensures r.Ok? ==> files == After(old(files), actions, times) && r.value == Outcomes(old(files), actions, times)
      ensures r.Err? ==> files == old(files)
    {
      if !confirmed { return Err("danger plan execution refused: explicit confirmation required"); }
      var outcomes, i := [], 0;
      while i < |actions|
        invariant 0 <= i <= |actions|
        invariant files == After(old(files), actions[..i], times)
        invariant outcomes == Outcomes(old(files), actions[..i], times)
      {
        assert actions[..i + 1][..i] == actions[..i];
        var backup := None;
        if actions[i].newContents.Some? {
          backup := WriteWithBackup(actions[i].path, actions[i].newContents.value, times(i));
        }
        outcomes := outcomes + [Outcome(actions[i].path, backup)];
        i := i + 1;
      }
      assert actions[..i] == actions;
      return Ok(outcomes);
    }
  }

  // ----- the printed copies

  datatype Copy = Copy(source: Path, target: Path)

  /** `rollback_commands` */
  function Commands(outcomes: seq<Outcome>): seq<Copy> {
    if outcomes == [] then []
    else
      var last := outcomes[|outcomes| - 1];
      Commands(outcomes[..|outcomes| - 1]) + if last.backup.Some? then [Copy(last.backup.value, last.path)] else []
  }

  /** `cp`: without a source nothing happens. */
  function RunCopy(files: Files, c: Copy): Files {
    if c.source in files then files[c.target := files[c.source]] else files
  }

  function RunCopies(files: Files, copies: seq<Copy>): Files {
    if copies == [] then files else RunCopy(RunCopies(files, copies[..|copies| - 1]), copies[|copies| - 1])
  }

  function Reverse(copies: seq<Copy>): seq<Copy> {
    if copies == [] then [] else [copies[|copies| - 1]] + Reverse(copies[..|copies| - 1])
  }

  lemma {:induction false} RunConcat(files: Files, xs: seq<Copy>, ys: seq<Copy>)
    ensures RunCopies(files, xs + ys) == RunCopies(RunCopies(files, xs), ys)
  {
    if ys == [] {
      assert xs + ys == xs;
    } else {
      RunConcat(files, xs, ys[..|ys| - 1]);
      assert (xs + ys)[..|xs + ys| - 1] == xs + ys[..|ys| - 1];
    }
  }

  lemma CommandsNext(outcomes: seq<Outcome>, o: Outcome)
    ensures Commands(outcomes + [o]) ==
            Commands(outcomes) + if o.backup.Some? then [Copy(o.backup.value, o.path)] else []
  {
    assert (outcomes + [o])[..|outcomes|] == outcomes;
  }

  lemma ReverseNext(copies: seq<Copy>, c: Copy)
    ensures Reverse(copies + [c]) == [c] + Reverse(copies)
  {
    assert (copies + [c])[..|copies|] == copies;
  }

  lemma ExecuteNext(files: Files, actions: seq<Action>, a: Action, times: nat -> nat)
    ensures var step := ActionEffect(After(files, actions, times), a, times(|actions|));
      && After(files, actions + [a], times) == step.0
      && Outcomes(files, actions + [a], times) == Outcomes(files, actions, times) + [step.1]
  {
    assert (actions + [a])[..|actions|] == actions;
  }

  // ----- what execution leaves alone

  /** Everything in `small` is in `large`, unchanged. */
  ghost predicate Extends(large: Files, small: Files) {
    forall p :: p in small ==> p in large && large[p] == small[p]
  }

  predicate Targets(actions: seq<Action>, p: Path) {
    exists i :: 0 <= i < |actions| && actions[i].newContents.Some? && actions[i].path == p
  }

  lemma {:induction false} OthersUnchanged(files: Files, actions: seq<Action>, times: nat -> nat, p: Path)
    requires p in files
    ensures p in After(files, actions, times)
    ensures !Targets(actions, p) ==> After(files, actions, times)[p] == files[p]
  {
    if actions != [] {
      var n := |actions| - 1;
      OthersUnchanged(files, actions[..n], times, p);
      if !Targets(actions, p) { assert forall i :: 0 <= i < n ==> actions[..n][i] == actions[i]; }
    }
  }

  lemma {:induction false} BackupsAreNew(files: Files, actions: seq<Action>, times: nat -> nat)
    ensures forall o :: o in Outcomes(files, actions, times) && o.backup.Some? ==> o.backup.value !in files
  {
    if actions != [] {
      var n := |actions| - 1;
      BackupsAreNew(files, actions[..n], times);
      forall p | p in files ensures p in After(files, actions[..n], times) {
        OthersUnchanged(files, actions[..n], times, p);
      }
    }
  }

  /** Carrying out a plan changes no file that existed before except the targets, and puts no
      backup where a file was. */
  lemma {:induction false} ExecutionIsContained(files: Files, actions: seq<Action>, times: nat -> nat, p: Path)
    requires p in files
    ensures p in After(files, actions, times)
    ensures After(files, actions, times)[p] != files[p] ==> Targets(actions, p)
    ensures forall o :: o in Outcomes(files, actions, times) ==> o.backup != Some(p)
  {
    OthersUnchanged(files, actions, times, p);
    BackupsAreNew(files, actions, times);
  }

  /** Two actions were given the same place for a backup. */
  ghost predicate SharesBackup(files: Files, actions: seq<Action>, times: nat -> nat, i: nat, j: nat)
    requires i < j < |Outcomes(files, actions, times)|
  {
    var outcomes := Outcomes(files, actions, times);
    outcomes[i].backup.Some? && outcomes[i].backup == outcomes[j].backup
  }

  lemma {:induction false} EffectsSoFar(files: Files, actions: seq<Action>, times: nat -> nat, i: nat)
    requires i < |actions|
    ensures i < |Outcomes(files, actions, times)| == |actions|
    ensures var step := ActionEffect(After(files, actions[..i], times), actions[i], times(i));
      && Outcomes(files, actions, times)[i] == step.1
      && step.0.Keys <= After(files, actions, times).Keys
  {
    var n := |actions| - 1;
    OneOutcomeEach(files, actions, times);
    if i < n {
      EffectsSoFar(files, actions[..n], times, i);
      assert actions[..n][..i] == actions[..i];
    }
  }

  /** No backup overwrites another: two actions name the same backup only when the first one's
      target did not exist, so that nothing was backed up there. */
  lemma BackupsAreKept(files: Files, actions: seq<Action>, times: nat -> nat, i: nat, j: nat)
    requires i < j < |Outcomes(files, actions, times)|
    ensures |Outcomes(files, actions, times)| == |actions|
    ensures SharesBackup(files, actions, times, i, j) ==> actions[i].path !in After(files, actions[..i], times)
  {
    OneOutcomeEach(files, actions, times);
    EffectsSoFar(files, actions, times, j);
    EffectsSoFar(files, actions, times, i);
    EffectsSoFar(files, actions[..j], times, i);
    assert actions[..j][..i] == actions[..i];
  }

  /** So the places differ when all targets exist. */
  lemma BackupsDiffer(files: Files, actions: seq<Action>, times: nat -> nat, i: nat, j: nat)
    requires TargetsExist(files, actions) && i < j < |Outcomes(files, actions, times)|
    ensures !SharesBackup(files, actions, times, i, j)
  {
    OneOutcomeEach(files, actions, times);
    BackupsAreKept(files, actions, times, i, j);
    EffectsSoFar(files, actions, times, i);
    if actions[i].path in files { OthersUnchanged(files, actions[..i], times, actions[i].path); }
  }

  // ----- undoing in reverse

  lemma UndoOne(before: Files, a: Action, secs: nat, now: Files)
    requires var step := ActionEffect(before, a, secs); Extends(now, step.0) && step.1.backup.Some?
    ensures Extends(RunCopy(now, Copy(ActionEffect(before, a, secs).1.backup.value, a.path)), before)
  {
  }

  lemma {:induction false} UndoAll(files: Files, actions: seq<Action>, times: nat -> nat, now: Files)
    requires Extends(now, After(files, actions, times))
    ensures Extends(RunCopies(now, Reverse(Commands(Outcomes(files, actions, times)))), files)
  {
    if actions != [] {
      var n := |actions| - 1;
      var init, last := actions[..n], actions[n];
      assert init + [last] == actions;
      ExecuteNext(files, init, last, times);
      var before, o := After(files, init, times), ActionEffect(After(files, init, times), last, times(n)).1;
      var earlier := Commands(Outcomes(files, init, times));
      CommandsNext(Outcomes(files, init, times), o);
      if o.backup.Some? {
        var c := Copy(o.backup.value, last.path);
        UndoOne(before, last, times(n), now);
        ReverseNext(earlier, c);
        RunConcat(now, [c], Reverse(earlier));
        assert [c][..0] == [];
        assert RunCopies(now, [c]) == RunCopy(now, c);
        UndoAll(files, init, times, RunCopy(now, c));
      } else {
        assert earlier + [] == earlier;
        UndoAll(files, init, times, now);
      }
    }
  }

  function Lookup(files: Files, p: Path): Option<string> {
    if p in files then Some(files[p]) else None
  }

  lemma {:induction false} CopiesKeepFiles(files: Files, copies: seq<Copy>)
    ensures files.Keys <= RunCopies(files, copies).Keys
  {
    if copies != [] { CopiesKeepFiles(files, copies[..|copies| - 1]); }
  }

  lemma {:induction false} WrittenExists(files: Files, actions: seq<Action>, times: nat -> nat, o: Outcome)
    requires o in Outcomes(files, actions, times) && o.backup.Some?
    ensures o.path in After(files, actions, times)
  {
    var n := |actions| - 1;
    if o in Outcomes(files, actions[..n], times) { WrittenExists(files, actions[..n], times, o); }
  }

  /** Rolling back in reverse order restores every file that existed, for any plan: repeated
      targets, backups that are targets themselves, a clock that stands still. A file that was
      written is back to what it was, present or absent, exactly when it existed before. */
  lemma ReverseRollbackRestores(files: Files, actions: seq<Action>, times: nat -> nat, o: Outcome)
    requires o in Outcomes(files, actions, times) && o.backup.Some?
    ensures var after := After(files, actions, times);
      var undone := RunCopies(after, Reverse(Commands(Outcomes(files, actions, times))));
      Extends(undone, files) && (Lookup(undone, o.path) == Lookup(files, o.path) <==> o.path in files)
  {
    var after := After(files, actions, times);
    UndoAll(files, actions, times, after);
    WrittenExists(files, actions, times, o);
    CopiesKeepFiles(after, Reverse(Commands(Outcomes(files, actions, times))));
  }

  // ----- undoing in any order

  ghost predicate TargetsExist(files: Files, actions: seq<Action>) {
    forall i :: 0 <= i < |actions| && actions[i].newContents.Some? ==> actions[i].path in files
  }

  ghost predicate TargetsDiffer(actions: seq<Action>) {
    forall i, j :: 0 <= i < j < |actions| && actions[i].newContents.Some? && actions[j].newContents.Some? ==>
      actions[i].path != actions[j].path
  }

  /** The copy's source is nobody's target, and holds what its target held before. */
  ghost predicate Restores(files: Files, after: Files, c: Copy) {
    && c.source in after && c.source !in files
    && c.target in files && after[c.source] == files[c.target]
  }

  ghost predicate AllRestore(files: Files, after: Files, copies: seq<Copy>) {
    forall c :: c in copies ==> Restores(files, after, c)
  }

  lemma {:induction false} TargetsOfCommands(files: Files, actions: seq<Action>, times: nat -> nat, c: Copy)
    requires c in Commands(Outcomes(files, actions, times))
    ensures Targets(actions, c.target)
  {
    var n := |actions| - 1;
    var init := actions[..n];
    assert init + [actions[n]] == actions;
    ExecuteNext(files, init, actions[n], times);
    CommandsNext(Outcomes(files, init, times), ActionEffect(After(files, init, times), actions[n], times(n)).1);
    if c in Commands(Outcomes(files, init, times)) {
      TargetsOfCommands(files, init, times, c);
      var i :| 0 <= i < |init| && init[i].newContents.Some? && init[i].path == c.target;
      assert actions[i] == init[i];
    } else {
      assert actions[n].newContents.Some? && actions[n].path == c.target;
    }
  }

  lemma LaterActionSpares(files: Files, before: Files, a: Action, secs: nat, c: Copy)
    requires Restores(files, before, c) && (a.newContents.Some? ==> a.path in files && a.path in before)
    ensures Restores(files, ActionEffect(before, a, secs).0, c)
  {
  }

  lemma FirstWriteRestores(files: Files, before: Files, a: Action, secs: nat)
    requires a.path in files && files.Keys <= before.Keys && before[a.path] == files[a.path]
    requires ActionEffect(before, a, secs).1.backup.Some?
    ensures var step := ActionEffect(before, a, secs); Restores(files, step.0, Copy(step.1.backup.value, a.path))
  {
  }

  lemma {:induction false} CommandsRestore(files: Files, actions: seq<Action>, times: nat -> nat)
    requires TargetsExist(files, actions) && TargetsDiffer(actions)
    ensures AllRestore(files, After(files, actions, times), Commands(Outcomes(files, actions, times)))
  {
    if actions != [] {
      var n := |actions| - 1;
      var init, a := actions[..n], actions[n];
      assert init + [a] == actions;
      CommandsRestore(files, init, times);
      ExecuteNext(files, init, a, times);
      var before := After(files, init, times);
      var step := ActionEffect(before, a, times(n));
      CommandsNext(Outcomes(files, init, times), step.1);
      forall p | p in files ensures p in before { OthersUnchanged(files, init, times, p); }
      forall c | c in Commands(Outcomes(files, init, times)) ensures Restores(files, step.0, c) {
        LaterActionSpares(files, before, a, times(n), c);
      }
      if step.1.backup.Some? {
        OthersUnchanged(files, init, times, a.path);
        FirstWriteRestores(files, before, a, times(n));
      }
    }
  }

  ghost predicate Untouched(copies: seq<Copy>, p: Path) {
    forall c :: c in copies ==> c.target != p
  }

  lemma {:induction false} CopiesInAnyOrder(files: Files, after: Files, copies: seq<Copy>, p: Path)
    requires AllRestore(files, after, copies) && p in after
    ensures p in RunCopies(after, copies)
    ensures RunCopies(after, copies)[p] == if Untouched(copies, p) then after[p] else files[p]
  {
    if copies != [] {
      var init, last := copies[..|copies| - 1], copies[|copies| - 1];
      assert copies == init + [last];
      CopiesInAnyOrder(files, after, init, p);
      assert Restores(files, after, last);
      assert Untouched(init, last.source);
      CopiesInAnyOrder(files, after, init, last.source);
      if last.target == p { assert !Untouched(copies, p); }
    }
  }

  lemma {:induction false} TargetHasCommand(files: Files, actions: seq<Action>, times: nat -> nat, p: Path)
    requires p in files && Untouched(Commands(Outcomes(files, actions, times)), p)
    ensures p in After(files, actions, times) && After(files, actions, times)[p] == files[p]
  {
    if actions != [] {
      var n := |actions| - 1;
      var init := actions[..n];
      assert init + [actions[n]] == actions;
      ExecuteNext(files, init, actions[n], times);
      var o := ActionEffect(After(files, init, times), actions[n], times(n)).1;
      CommandsNext(Outcomes(files, init, times), o);
      TargetHasCommand(files, init, times, p);
      if o.backup.Some? { assert Copy(o.backup.value, o.path) in Commands(Outcomes(files, actions, times)); }
    }
  }

  /** When the targets exist and differ, the copies restore everything in whatever order, and
      however often, they are run. */
  lemma AnyOrderRestores(files: Files, actions: seq<Action>, times: nat -> nat, copies: seq<Copy>)
    requires TargetsExist(files, actions) && TargetsDiffer(actions)
    requires forall c :: c in copies <==> c in Commands(Outcomes(files, actions, times))
    ensures Extends(RunCopies(After(files, actions, times), copies), files)
  {
    var after := After(files, actions, times);
    CommandsRestore(files, actions, times);
    forall p | p in files
      ensures p in RunCopies(after, copies) && RunCopies(after, copies)[p] == files[p]
    {
      OthersUnchanged(files, actions, times, p);
      CopiesInAnyOrder(files, after, copies, p);
      if Untouched(copies, p) { TargetHasCommand(files, actions, times, p); }
    }
  }

  // ----- undoing in the printed order

  /** What was written to a file, in order: the contents of the actions on it that a backup was
      found for. */
  function Writes(actions: seq<Action>, outcomes: seq<Outcome>, p: Path): seq<string>
    requires |actions| == |outcomes|
  {
    if actions == [] then []
    else
      var n := |actions| - 1;
      Writes(actions[..n], outcomes[..n], p) +
      if actions[n].newContents.Some? && outcomes[n].backup.Some? && actions[n].path == p
      then [actions[n].newContents.value] else []
  }

  lemma WritesNext(actions: seq<Action>, outcomes: seq<Outcome>, a: Action, o: Outcome, p: Path)
    requires |actions| == |outcomes|
    ensures Writes(actions + [a], outcomes + [o], p) == Writes(actions, outcomes, p) +
      if a.newContents.Some? && o.backup.Some? && a.path == p then [a.newContents.value] else []
  {
    assert (actions + [a])[..|actions|] == actions && (outcomes + [o])[..|outcomes|] == outcomes;
  }

  lemma {:induction false} OneOutcomeEach(files: Files, actions: seq<Action>, times: nat -> nat)
    ensures |Outcomes(files, actions, times)| == |actions|
  {
    if actions != [] { OneOutcomeEach(files, actions[..|actions| - 1], times); }
  }

  /** What a file holds after these writes. */
  function Last(writes: seq<string>, original: string): string {
    if writes == [] then original else writes[|writes| - 1]
  }

  /** What it held before the last of them. */
  function LastButOne(writes: seq<string>, original: string): string {
    if |writes| <= 1 then original else writes[|writes| - 2]
  }

  lemma ActionWrites(files: Files, before: Files, a: Action, secs: nat, p: Path)
    requires p in files && files.Keys <= before.Keys
    ensures var step := ActionEffect(before, a, secs);
      p in step.0 &&
      step.0[p] == if a.newContents.Some? && step.1.backup.Some? && a.path == p then a.newContents.value else before[p]
  {
  }

  lemma {:induction false} HoldsLastWrite(files: Files, actions: seq<Action>, times: nat -> nat, p: Path)
    requires p in files
    ensures |Outcomes(files, actions, times)| == |actions|
    ensures Lookup(After(files, actions, times), p) ==
            Some(Last(Writes(actions, Outcomes(files, actions, times), p), files[p]))
  {
    OneOutcomeEach(files, actions, times);
    if actions != [] {
      var n := |actions| - 1;
      var init, a := actions[..n], actions[n];
      assert init + [a] == actions;
      HoldsLastWrite(files, init, times, p);
      ExecuteNext(files, init, a, times);
      StillThere(files, init, times);
      var before := After(files, init, times);
      ActionWrites(files, before, a, times(n), p);
      WritesNext(init, Outcomes(files, init, times), a, ActionEffect(before, a, times(n)).1, p);
    }
  }

  ghost predicate SourcesApart(files: Files, after: Files, copies: seq<Copy>) {
    forall c :: c in copies ==> c.source in after && c.source !in files && c.target in files
  }

  lemma StillThere(files: Files, actions: seq<Action>, times: nat -> nat)
    ensures files.Keys <= After(files, actions, times).Keys
  {
    forall p | p in files ensures p in After(files, actions, times) { OthersUnchanged(files, actions, times, p); }
  }

  lemma StepKeepsApart(files: Files, before: Files, copies: seq<Copy>, a: Action, secs: nat)
    requires SourcesApart(files, before, copies) && files.Keys <= before.Keys &&
             (a.newContents.Some? ==> a.path in files)
    ensures var step := ActionEffect(before, a, secs);
      SourcesApart(files, step.0, copies + if step.1.backup.Some? then [Copy(step.1.backup.value, a.path)] else [])
  {
  }

  lemma {:induction false} CommandsApart(files: Files, actions: seq<Action>, times: nat -> nat)
    requires TargetsExist(files, actions)
    ensures SourcesApart(files, After(files, actions, times), Commands(Outcomes(files, actions, times)))
  {
    if actions != [] {
      var n := |actions| - 1;
      var init, a := actions[..n], actions[n];
      assert init + [a] == actions;
      CommandsApart(files, init, times);
      ExecuteNext(files, init, a, times);
      CommandsNext(Outcomes(files, init, times), ActionEffect(After(files, init, times), a, times(n)).1);
      StillThere(files, init, times);
      StepKeepsApart(files, After(files, init, times), Commands(Outcomes(files, init, times)), a, times(n));
    }
  }

  /** Copies whose sources are nobody's target give the same result on every disk that agrees
      on the sources and on the file asked about. */
  lemma {:induction false} SameCopies(files: Files, x: Files, y: Files, copies: seq<Copy>, p: Path)
    requires SourcesApart(files, x, copies) && SourcesApart(files, y, copies)
    requires forall c :: c in copies ==> x[c.source] == y[c.source]
    requires Lookup(x, p) == Lookup(y, p)
    ensures Lookup(RunCopies(x, copies), p) == Lookup(RunCopies(y, copies), p)
  {
    if copies != [] {
      var init, last := copies[..|copies| - 1], copies[|copies| - 1];
      assert copies == init + [last];
      SameCopies(files, x, y, init, p);
      SourcesKept(files, x, init, last.source);
      SourcesKept(files, y, init, last.source);
    }
  }

  lemma {:induction false} SourcesKept(files: Files, x: Files, copies: seq<Copy>, source: Path)
    requires SourcesApart(files, x, copies) && source in x && source !in files
    ensures source in RunCopies(x, copies) && RunCopies(x, copies)[source] == x[source]
  {
    if copies != [] {
      assert copies == copies[..|copies| - 1] + [copies[|copies| - 1]];
      SourcesKept(files, x, copies[..|copies| - 1], source);
    }
  }

  /** One more action: the copies made so far still do what they did, and the new one comes last. */
  lemma PrintedStep(files: Files, before: Files, earlier: seq<Copy>, a: Action, secs: nat, p: Path)
    requires SourcesApart(files, before, earlier) && files.Keys <= before.Keys && p in files
    requires a.newContents.Some? ==> a.path in files
    ensures var step := ActionEffect(before, a, secs);
      Lookup(RunCopies(step.0, earlier + if step.1.backup.Some? then [Copy(step.1.backup.value, a.path)] else []), p) ==
      if step.1.backup.Some? && a.path == p then Lookup(before, p) else Lookup(RunCopies(before, earlier), p)
  {
    var step := ActionEffect(before, a, secs);
    StepKeepsApart(files, before, earlier, a, secs);
    if step.1.backup.Some? {
      var c := Copy(step.1.backup.value, a.path);
      RunSnoc(step.0, earlier, c);
      assert SourcesApart(files, step.0, earlier) by { assert forall x :: x in earlier ==> x in earlier + [c]; }
      SourcesKept(files, step.0, earlier, c.source);
      if a.path != p { SameCopies(files, before, step.0, earlier, p); }
    } else {
      assert earlier + [] == earlier;
    }
  }

  lemma RunSnoc(files: Files, copies: seq<Copy>, c: Copy)
    ensures RunCopies(files, copies + [c]) == RunCopy(RunCopies(files, copies), c)
  {
    assert (copies + [c])[..|copies|] == copies;
  }

  /** One more action: a write to the file leaves what the writes so far put there. */
  lemma PrintedOrderNext(files: Files, init: seq<Action>, a: Action, times: nat -> nat, p: Path)
    requires TargetsExist(files, init + [a]) && p in files && |Outcomes(files, init, times)| == |init|
    requires Lookup(RunCopies(After(files, init, times), Commands(Outcomes(files, init, times))), p) ==
             Some(LastButOne(Writes(init, Outcomes(files, init, times), p), files[p]))
    ensures |Outcomes(files, init + [a], times)| == |init + [a]|
    ensures Lookup(RunCopies(After(files, init + [a], times), Commands(Outcomes(files, init + [a], times))), p) ==
            Some(LastButOne(Writes(init + [a], Outcomes(files, init + [a], times), p), files[p]))
  {
    hide After, Outcomes, TargetsExist, RunCopies, Commands, Writes, SourcesApart, ActionEffect, Last, LastButOne;
    var before, outcomes := After(files, init, times), Outcomes(files, init, times);
    var step := ActionEffect(before, a, times(|init|));
    ActionOutcome(before, a, times(|init|));
    TargetsExistSoFar(files, init, a);
    HoldsLastWrite(files, init, times, p);
    CommandsApart(files, init, times);
    StillThere(files, init, times);
    ExecuteNext(files, init, a, times);
    CommandsNext(outcomes, step.1);
    WritesNext(init, outcomes, a, step.1, p);
    PrintedStep(files, before, Commands(outcomes), a, times(|init|), p);
    var writes := Writes(init, outcomes, p);
    if step.1.backup.Some? && a.path == p {
      LastButOneNext(writes, a.newContents.value, files[p]);
    } else {
      assert writes + [] == writes;
    }
  }

  lemma LastButOneNext(writes: seq<string>, more: string, original: string)
    ensures LastButOne(writes + [more], original) == Last(writes, original)
  {
  }

  lemma ActionOutcome(before: Files, a: Action, secs: nat)
    ensures var o := ActionEffect(before, a, secs).1; o.path == a.path && (o.backup.Some? ==> a.newContents.Some?)
  {
  }

  lemma TargetsExistSoFar(files: Files, init: seq<Action>, a: Action)
    requires TargetsExist(files, init + [a])
    ensures TargetsExist(files, init) && (a.newContents.Some? ==> a.path in files)
  {
    var actions := init + [a];
    assert actions[|init|] == a && forall i :: 0 <= i < |init| ==> actions[i] == init[i];
  }

  lemma {:induction false} PrintedOrderLeaves(files: Files, actions: seq<Action>, times: nat -> nat, p: Path)
    requires TargetsExist(files, actions) && p in files
    ensures |Outcomes(files, actions, times)| == |actions|
    ensures Lookup(RunCopies(After(files, actions, times), Commands(Outcomes(files, actions, times))), p) ==
            Some(LastButOne(Writes(actions, Outcomes(files, actions, times), p), files[p]))
  {
    OneOutcomeEach(files, actions, times);
    if actions != [] {
      hide RunCopies, After, Outcomes, Commands, Writes, ActionEffect;
      var init, a := actions[..|actions| - 1], actions[|actions| - 1];
      assert init + [a] == actions;
      TargetsExistSoFar(files, init, a);
      PrintedOrderLeaves(files, init, times, p);
      PrintedOrderNext(files, init, a, times, p);
    }
  }

  /** Run in the printed order, the copies leave every file with what the last write but one put
      there. So they restore a file exactly when it was written at most once, or when that write
      happened to put its first contents back. */
  lemma PrintedOrderRestoresIff(files: Files, actions: seq<Action>, times: nat -> nat, p: Path)
    requires TargetsExist(files, actions) && p in files
    ensures |Outcomes(files, actions, times)| == |actions|
    ensures var outcomes := Outcomes(files, actions, times);
      var writes := Writes(actions, outcomes, p);
      var undone := RunCopies(After(files, actions, times), Commands(outcomes));
      Lookup(undone, p) == Lookup(files, p) <==> |writes| <= 1 || writes[|writes| - 2] == files[p]
  {
    PrintedOrderLeaves(files, actions, times, p);
  }

  // ----- a file that the printed order does not restore

  const SETTINGS := Path("~/.cursor", Some("mcp.json"))
  const BEFORE: Files := map[SETTINGS := "x"]
  const TWICE := [Action(SETTINGS, Some("a")), Action(SETTINGS, Some("b"))]

  lemma TwoWrites()
    ensures |Outcomes(BEFORE, TWICE, t => t)| == 2
    ensures Writes(TWICE, Outcomes(BEFORE, TWICE, t => t), SETTINGS) == ["a", "b"]
  {
    var times := (t: nat) => t;
    BackupIsElsewhere(SETTINGS, 0, 0);
    BackupIsElsewhere(SETTINGS, 1, 0);
    assert TWICE[..1] == [TWICE[0]] && TWICE[..0] == [] && [] + [TWICE[0]] == [TWICE[0]];
    assert [TWICE[0]] + [TWICE[1]] == TWICE;
    ExecuteNext(BEFORE, [], TWICE[0], times);
    ExecuteNext(BEFORE, [TWICE[0]], TWICE[1], times);
    var first := ActionEffect(BEFORE, TWICE[0], 0);
    assert first.1 == Outcome(SETTINGS, Some(BackupAt(SETTINGS, 0, 0)));
    assert After(BEFORE, [TWICE[0]], times) == first.0;
    TwoBackups();
    var second := ActionEffect(first.0, TWICE[1], 1);
    assert second.1 == Outcome(SETTINGS, Some(BackupAt(SETTINGS, 1, 0)));
    WritesNext([], [], TWICE[0], first.1, SETTINGS);
    WritesNext([TWICE[0]], [first.1], TWICE[1], second.1, SETTINGS);
    assert [] + [first.1] == [first.1];
    assert Outcomes(BEFORE, TWICE, times) == [first.1] + [second.1];
  }

  lemma TwoBackups()
    ensures BackupAt(SETTINGS, 0, 0) != BackupAt(SETTINGS, 1, 0)
  {
    var a, b := BackupAt(SETTINGS, 0, 0).name.value, BackupAt(SETTINGS, 1, 0).name.value;
    assert Text.Decimal(0) == "0" && Text.Decimal(1) == "1";
    assert a == "mcp.json." + "0" + ".bak" && b == "mcp.json." + "1" + ".bak";
    assert a[9] == '0' && b[9] == '1';
  }

  /** Two rewrites of one file, undone as printed, leave it as the first rewrite made it. */
  lemma PrintedOrderCanFail()
    ensures TargetsExist(BEFORE, TWICE)
    ensures Lookup(RunCopies(After(BEFORE, TWICE, t => t), Commands(Outcomes(BEFORE, TWICE, t => t))), SETTINGS) ==
            Some("a") != Lookup(BEFORE, SETTINGS)
  {
    TwoWrites();
    PrintedOrderLeaves(BEFORE, TWICE, t => t, SETTINGS);
    assert "a" != "x";
  }

  // ----- a backup place named twice

  /** Two actions within one second that both create the same file: nothing is backed up at the
      first, and the place it names is named again by the second. */
  lemma BackupCanBeNamedTwice()
    ensures |Outcomes(map[], TWICE, t => 0)| == 2 && SharesBackup(map[], TWICE, t => 0, 0, 1)
  {
    var times := (t: nat) => 0;
    BackupIsElsewhere(SETTINGS, 0, 0);
    assert TWICE[..1] == [TWICE[0]] && [] + [TWICE[0]] == [TWICE[0]] && [TWICE[0]] + [TWICE[1]] == TWICE;
    ExecuteNext(map[], [], TWICE[0], times);
    ExecuteNext(map[], [TWICE[0]], TWICE[1], times);
    var first := ActionEffect(map[], TWICE[0], 0);
    assert first.1 == Outcome(SETTINGS, Some(BackupAt(SETTINGS, 0, 0))) && first.0 == map[SETTINGS := "a"];
    assert ActionEffect(first.0, TWICE[1], 0).1 == first.1;
    assert Outcomes(map[], TWICE, times) == [first.1] + [first.1];
  }
}
