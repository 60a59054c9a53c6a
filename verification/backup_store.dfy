/** The functions of backup.c as they are written, on the files of the backup directory in place. */
module BackupStore {
  import opened Runs
  import opened MetadataFilter
  import opened LineDiff
  import opened BackupHistory

  class Store {
    const dir: string
    var files: map<string, string>
    var backup: map<string, string>
    var sample: nat
    var firstBackupDone: bool
    ghost var started: bool

    constructor (dir: string, files: map<string, string>)
      ensures Value() == State(dir, files, map[], 0, false)
    {
      this.dir, this.files := dir, files;
      backup, sample, firstBackupDone, started := map[], 0, false, false;
    }

    ghost function Value(): State
      reads this
    {
      State(dir, files, backup, sample, started)
    }

    /** fopen for writing and the loop that copies one file's contents. */
    method CopyToBackup(path: string, to: string, opens: bool)
      requires path in files
      modifies this`backup
      ensures backup == if opens && EntryFits(to) then old(backup)[to := files[path]] else old(backup)
    {
      if opens && EntryFits(to) {
        backup := backup[to := files[path]];
      }
    }

    /** Called once, before the daemon's loop; with no file to copy it does not count as done. */
    method CreateFullBackup(listed: seq<Copy>)
      requires !started
      modifies this`backup, this`firstBackupDone, this`started
      ensures Step(old(Value()), Start(listed)) == Some(Value())
      ensures firstBackupDone <==> old(firstBackupDone) || listed != []
    {
      if listed == [] {
        started := true;
        return;
      }
      ghost var before := Value();
      assert listed[0..] == listed;
      for i := 0 to |listed|
        invariant Value() == before.(backup := backup) && CopyBases(Value(), listed[i..]) == CopyBases(before, listed)
      {
        var path := listed[i].path;
        assert listed[i..][0] == listed[i] && listed[i..][1..] == listed[i + 1..];
        if Basename(path) == "debug.log" {
          continue;
        }
        var backupPath := BasePath(RelativeName(path, dir));
        if |backupPath| >= MAX_PATH_LEN {
          continue;
        }
        if path in files {
          CopyToBackup(path, backupPath, listed[i].opens);
        }
      }
      firstBackupDone, started := true, true;
    }

    /** save_diff: the command, which may not start or not be the one intended, and the file, which may not open. */
    method SaveDiffOf(basePath: string, diffPath: string, now: nat, turn: Turn)
      modifies this`backup
      ensures backup == if turn.started && turn.diffOpens && EntryFits(diffPath)
                        then old(backup)[diffPath := DiffFile(old(Value()), basePath, now, turn)] else old(backup)
    {
      if !turn.started {
        return;
      }
      if !turn.diffOpens || !EntryFits(diffPath) {
        return;
      }
      var output := "";
      if !ShellSafe(basePath) || !ShellSafe(turn.path) {
        output := turn.odd;
      } else if StillCompares(DiffCommand(basePath, turn.path), turn.writable) {
        if basePath in backup && turn.path in files {
          output := DiffText(turn.diff, backup[basePath], files[turn.path]);
        }
      }
      var text := SaveDiff(Metadata(now, sample, basePath, turn.path), output);
      backup := backup[diffPath := text];
    }

    /** The loop over the changed files; the caller has counted the sample. */
    method CreateIncrementalBackup(turns: seq<Turn>, now: nat) returns (count: nat)
      modifies this`backup
      ensures Value() == BackUpFiles(old(Value()), now, turns) && count == |turns|
    {
      ghost var before := Value();
      assert turns[0..] == turns;
      for i := 0 to |turns|
        invariant Value() == before.(backup := backup)
        invariant BackUpFiles(Value(), now, turns[i..]) == BackUpFiles(before, now, turns)
      {
        var path := turns[i].path;
        assert turns[i..][0] == turns[i] && turns[i..][1..] == turns[i + 1..];
        if Basename(path) == "debug.log" {
          continue;
        }
        var name := RelativeName(path, dir);
        var basePath := BasePath(name);
        if |basePath| >= MAX_PATH_LEN {
          continue;
        }
        if basePath !in backup && path in files {
          CopyToBackup(path, basePath, turns[i].baseOpens);
        }
        var diffPath := DiffPath(name, sample);
        if |diffPath| >= MAX_PATH_LEN {
          continue;
        }
        SaveDiffOf(basePath, diffPath, now, turns[i]);
      }
      count := |turns|;
    }

    /** What remains in the temporary file after the patch, and whether it succeeded. */
    method ApplySavedDiff(base: string, diff: string, temp: string, clean: string, w: World)
      returns (content: Option<string>)
      ensures content == Patched(base, diff, temp, clean, w)
    {
      var cleanText := StripMetadata(diff);
      if !ShellSafe(temp) || !ShellSafe(clean) {
        content := w.odd;
      } else if |PatchCommand(temp, clean)| >= COMMAND_SIZE || !Opens(w, clean) {
        content := None;
      } else {
        content := Patch(base, cleanText);
      }
    }

    method RestoreFileToSample(filename: string, target: int, w: World) returns (result: Option<Restored>)
      ensures result == Restore(Value(), filename, target, w)
    {
      if filename == "" || target < 1 || target > sample {
        return None;
      }
      var name := RelativeName(Cut(dir + "/" + filename), dir);
      var basePath := Cut(BasePath(name));
      if basePath !in backup {
        return None;
      }
      var temp := Cut(TempPath(name, w));
      if !Opens(w, temp) {
        return None;
      }
      var diffPath := Cut(DiffPath(name, target));
      var content := Some(backup[basePath]);
      if diffPath in backup {
        content := ApplySavedDiff(backup[basePath], backup[diffPath], temp, Cut(CleanPath(name, target, w)), w);
        if content.None? {
          return None;
        }
      }
      var restored := RestoredName(filename, target);
      var path := Cut(dir + "/" + restored);
      if |restored| > NAME_MAX || path in w.locked {
        return None;
      }
      result := Some(Restored(path, content.value));
    }
  }
}
