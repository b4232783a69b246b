/** When two actions of a plan are given the same place for their backups. */
module Backups {
  import opened Wrappers
  import opened Rollback
  import Text

  /** The name that backups of this path begin with. */
  function BaseName(path: Path): string {
    if path.name.Some? then path.name.value else "danger"
  }

  /** What stands between the name and the suffix. */
  function Stamp(secs: nat, k: nat): string {
    if k == 0 then Text.Decimal(secs) else Text.Decimal(secs) + "-" + Text.Decimal(k)
  }

  lemma BackupParts(path: Path, secs: nat, k: nat)
    ensures BackupAt(path, secs, k) == Path(path.dir, Some(BaseName(path) + ['.'] + Stamp(secs, k) + ".bak"))
  {
    var name, s, n := BaseName(path), Text.Decimal(secs), Text.Decimal(k);
    hide Text.Decimal;
    assert name + "." + s + "-" + n + ".bak" == name + ['.'] + (s + "-" + n) + ".bak";
    assert name + "." + s + ".bak" == name + ['.'] + s + ".bak";
  }

  lemma StampHoldsNoDot(secs: nat, k: nat)
    ensures '.' !in Stamp(secs, k)
  {
    Text.DecimalRoundTrip(secs);
    Text.DecimalRoundTrip(k);
    hide Text.Decimal;
  }

  lemma StampsDiffer(s: nat, k: nat, t: nat, l: nat)
    requires Stamp(s, k) == Stamp(t, l)
    ensures s == t && k == l
  {
    Text.DecimalRoundTrip(s);
    Text.DecimalRoundTrip(k);
    Text.DecimalRoundTrip(t);
    Text.DecimalRoundTrip(l);
    if k > 0 && l > 0 {
      Text.LastSplits(Text.Decimal(s), Text.Decimal(k), Text.Decimal(t), Text.Decimal(l), '-');
      Text.DecimalInjective(k, l);
    } else {
      Dashes(s, k);
      Dashes(t, l);
    }
    Text.DecimalInjective(s, t);
  }

  lemma Dashes(secs: nat, k: nat)
    ensures '-' in Stamp(secs, k) <==> k > 0
  {
    Text.DecimalRoundTrip(secs);
    if k > 0 { assert Stamp(secs, k)[|Text.Decimal(secs)|] == '-'; }
  }

  /** A place tells whose backup it is for, of which second, and the how manyeth. */
  lemma PlacesDiffer(p: Path, s: nat, k: nat, q: Path, t: nat, l: nat)
    requires BackupAt(p, s, k) == BackupAt(q, t, l)
    ensures p.dir == q.dir && BaseName(p) == BaseName(q) && s == t && k == l
  {
    BackupParts(p, s, k);
    BackupParts(q, t, l);
    StampHoldsNoDot(s, k);
    StampHoldsNoDot(t, l);
    var a, b := BaseName(p) + ['.'] + Stamp(s, k), BaseName(q) + ['.'] + Stamp(t, l);
    hide Stamp, BackupAt;
    assert (a + ".bak")[..|a|] == a && (b + ".bak")[..|b|] == b;
    Text.LastSplits(BaseName(p), Stamp(s, k), BaseName(q), Stamp(t, l), '.');
    StampsDiffer(s, k, t, l);
  }

  // ----- the place that is found

  /** The k-th place is the first free one. */
  ghost predicate FirstFree(files: Files, path: Path, secs: nat, k: nat) {
    k < 1000 && BackupAt(path, secs, k) !in files && forall j: nat :: j < k ==> BackupAt(path, secs, j) in files
  }

  lemma {:induction false} FoundFrom(files: Files, path: Path, secs: nat, from: nat)
    requires from <= MAX_BACKUPS && forall j: nat :: j < from ==> BackupAt(path, secs, j) in files
    ensures FreeBackup(files, path, secs, from).Some? ==>
      exists k: nat :: FirstFree(files, path, secs, k) &&
        FreeBackup(files, path, secs, from) == Some(BackupAt(path, secs, k))
    ensures forall k: nat :: FirstFree(files, path, secs, k) ==>
            FreeBackup(files, path, secs, from) == Some(BackupAt(path, secs, k))
    decreases MAX_BACKUPS - from
  {
    hide BackupAt;
    if from < MAX_BACKUPS {
      if BackupAt(path, secs, from) in files {
        FoundFrom(files, path, secs, from + 1);
      } else {
        assert FirstFree(files, path, secs, from);
      }
    }
  }

  /** The names of both backups begin alike, and the clock stood at the same second. */
  predicate SameSeries(p: Path, s: nat, q: Path, t: nat) {
    p.dir == q.dir && BaseName(p) == BaseName(q) && s == t
  }

  lemma SeriesAgree(p: Path, q: Path, secs: nat, k: nat)
    requires p.dir == q.dir && BaseName(p) == BaseName(q)
    ensures BackupAt(p, secs, k) == BackupAt(q, secs, k)
  {
    BackupParts(p, secs, k);
    BackupParts(q, secs, k);
  }

  /** With more files than before, the same place is found exactly if it is of the same series and
      still free. */
  lemma FoundAgainIff(before: Files, p: Path, s: nat, after: Files, q: Path, t: nat)
    requires before.Keys <= after.Keys
    requires FreeBackup(before, p, s, 0).Some? && FreeBackup(after, q, t, 0).Some?
    ensures FreeBackup(before, p, s, 0) == FreeBackup(after, q, t, 0) <==>
            SameSeries(p, s, q, t) && FreeBackup(before, p, s, 0).value !in after
  {
    hide BackupAt, FreeBackup;
    FoundFrom(before, p, s, 0);
    FoundFrom(after, q, t, 0);
    var k: nat :| FirstFree(before, p, s, k) && FreeBackup(before, p, s, 0) == Some(BackupAt(p, s, k));
    var l: nat :| FirstFree(after, q, t, l) && FreeBackup(after, q, t, 0) == Some(BackupAt(q, t, l));
    if BackupAt(p, s, k) == BackupAt(q, t, l) { PlacesDiffer(p, s, k, q, t, l); }
    if SameSeries(p, s, q, t) && BackupAt(p, s, k) !in after {
      forall m: nat { SeriesAgree(p, q, s, m); }
      assert FirstFree(after, q, t, k);
    }
  }

  // ----- in the course of a plan

  lemma FilesStay(files: Files, actions: seq<Action>, times: nat -> nat, i: nat, j: nat)
    requires i <= j <= |actions|
    ensures After(files, actions[..i], times).Keys <= After(files, actions[..j], times).Keys
  {
    if i < j {
      EffectsSoFar(files, actions[..j], times, i);
      assert actions[..j][..i] == actions[..i];
      var step := ActionEffect(After(files, actions[..i], times), actions[i], times(i));
      assert After(files, actions[..i], times).Keys <= step.0.Keys;
    }
  }

  /** Two actions share a place for their backups exactly when both found one, the names begin
      alike, the clock showed the same second, and the first one's place was still empty when the
      second one looked. */
  lemma SharesBackupIff(files: Files, actions: seq<Action>, times: nat -> nat, i: nat, j: nat)
    requires i < j < |Outcomes(files, actions, times)|
    ensures |Outcomes(files, actions, times)| == |actions|
    ensures var a, b := Outcomes(files, actions, times)[i].backup, Outcomes(files, actions, times)[j].backup;
      SharesBackup(files, actions, times, i, j) <==>
        && a.Some? && b.Some? && SameSeries(actions[i].path, times(i), actions[j].path, times(j))
        && a.value !in After(files, actions[..j], times)
  {
    OneOutcomeEach(files, actions, times);
    EffectsSoFar(files, actions, times, i);
    EffectsSoFar(files, actions, times, j);
    FilesStay(files, actions, times, i, j);
    var before, after := After(files, actions[..i], times), After(files, actions[..j], times);
    var a, b := actions[i], actions[j];
    var first, second := FreeBackup(before, a.path, times(i), 0), FreeBackup(after, b.path, times(j), 0);
    if a.newContents.Some? && b.newContents.Some? && first.Some? && second.Some? {
      FoundAgainIff(before, a.path, times(i), after, b.path, times(j));
    }
  }
}
