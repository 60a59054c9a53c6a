/** What the backup directory guarantees over whole runs. */
module BackupTheorems {
  import opened CText
  import opened Runs
  import opened Sequences
  import opened MetadataFilter
  import opened LineDiff
  import opened DiffFilter
  import opened BackupHistory

  // ---------- What a sample keeps ----------

  /** The entry of `path` stays what it is. */
  predicate Same(s: State, t: State, path: string) {
    path in s.backup && path in t.backup && t.backup[path] == s.backup[path]
  }

  /** Base copies stay, and so do diffs of other samples or names; of other names nothing appears. */
  predicate Keeps(s: State, t: State, name: string, k: nat, own: string, j: nat) {
    && t == s.(backup := t.backup)
    && (BasePath(name) in s.backup ==> Same(s, t, BasePath(name)))
    && (DiffPath(name, k) in s.backup && (k != j || name != own) ==> Same(s, t, DiffPath(name, k)))
    && (name != own ==> (BasePath(name) in t.backup ==> BasePath(name) in s.backup))
    && ((k != j || name != own) && DiffPath(name, k) in t.backup ==> DiffPath(name, k) in s.backup)
  }

  lemma CopyBaseKeeps(s: State, path: string, opens: bool, name: string, k: nat, j: nat)
    requires BasePath(RelativeName(path, s.dir)) !in s.backup
    ensures Keeps(s, CopyBase(s, path, opens), name, k, RelativeName(path, s.dir), j)
    ensures DiffPath(name, k) in CopyBase(s, path, opens).backup ==> DiffPath(name, k) in s.backup
  {
    var own := RelativeName(path, s.dir);
    BaseIsNoDiff(own, name, k);
    if BasePath(name) == BasePath(own) { BasePathsDiffer(name, own); }
  }

  lemma StoreDiffKeeps(s: State, own: string, j: nat, text: string, name: string, k: nat)
    ensures Keeps(s, s.(backup := s.backup[DiffPath(own, j) := text]), name, k, own, j)
    ensures BasePath(name) in s.backup <==> BasePath(name) in s.backup[DiffPath(own, j) := text]
  {
    BaseIsNoDiff(name, own, j);
    if DiffPath(name, k) == DiffPath(own, j) { DiffPathsDiffer(name, k, own, j); }
  }

  lemma BackUpFileKeeps(s: State, now: nat, turn: Turn, name: string, k: nat)
    ensures Keeps(s, BackUpFile(s, now, turn), name, k, RelativeName(turn.path, s.dir), s.sample)
  {
    if !Skipped(turn.path, s.dir) {
      var own := RelativeName(turn.path, s.dir);
      var base := BasePath(own);
      if base !in s.backup { CopyBaseKeeps(s, turn.path, turn.baseOpens, name, k, s.sample); }
      var t := if base in s.backup then s else CopyBase(s, turn.path, turn.baseOpens);
      StoreDiffKeeps(t, own, s.sample, DiffFile(t, base, now, turn), name, k);
    }
  }

  predicate NameAbsent(turns: seq<Turn>, dir: string, name: string) {
    forall i :: 0 <= i < |turns| ==> RelativeName(turns[i].path, dir) != name
  }

  lemma {:induction false} BackUpFilesKeep(s: State, now: nat, turns: seq<Turn>, name: string, k: nat)
    ensures var t := BackUpFiles(s, now, turns);
            && t == s.(backup := t.backup)
            && (BasePath(name) in s.backup ==> Same(s, t, BasePath(name)))
            && (DiffPath(name, k) in s.backup && (k != s.sample || NameAbsent(turns, s.dir, name)) ==>
                Same(s, t, DiffPath(name, k)))
            && (NameAbsent(turns, s.dir, name) && BasePath(name) in t.backup ==> BasePath(name) in s.backup)
            && (k != s.sample && DiffPath(name, k) in t.backup ==> DiffPath(name, k) in s.backup)
    decreases |turns|
  {
    if turns != [] {
      BackUpFileKeeps(s, now, turns[0], name, k);
      BackUpFilesKeep(BackUpFile(s, now, turns[0]), now, turns[1..], name, k);
    }
  }

  lemma SampleKeeps(s: State, u: State, now: nat, turns: seq<Turn>, name: string, k: nat)
    requires u == s.(sample := s.sample + 1) && k <= s.sample
    ensures var t := BackUpFiles(u, now, turns);
            && t == u.(backup := t.backup)
            && (BasePath(name) in s.backup ==> Same(s, t, BasePath(name)))
            && (DiffPath(name, k) in s.backup ==> Same(s, t, DiffPath(name, k)))
            && (DiffPath(name, k) in t.backup ==> DiffPath(name, k) in s.backup)
  {
    BackUpFilesKeep(u, now, turns, name, k);
  }

  lemma StepKeeps(s: State, e: Event, name: string, k: nat)
    requires Enabled(s, e) && s.started && k <= s.sample
    ensures var t := Apply(s, e);
            && t.dir == s.dir && s.sample <= t.sample && t.started
            && (BasePath(name) in s.backup ==> Same(s, t, BasePath(name)))
            && (DiffPath(name, k) in s.backup ==> Same(s, t, DiffPath(name, k)))
            && (DiffPath(name, k) in t.backup ==> DiffPath(name, k) in s.backup)
  {
    if e.Sample? { SampleKeeps(s, s.(sample := s.sample + 1), e.now, e.turns, name, k); }
  }

  /** Once made, a base copy never changes, and nor does what past samples have stored. */
  lemma HistoryIsFixed(s: State, es: seq<Event>, name: string, k: nat)
    requires s.started && k <= s.sample && Exec(Step, s, es).Some?
    ensures var t := Exec(Step, s, es).value;
            && t.dir == s.dir && s.sample <= t.sample
            && (BasePath(name) in s.backup ==> Same(s, t, BasePath(name)))
            && (DiffPath(name, k) in s.backup ==> Same(s, t, DiffPath(name, k)))
            && (DiffPath(name, k) in t.backup ==> DiffPath(name, k) in s.backup)
  {
    var inv := (t: State) =>
      && t.dir == s.dir && s.sample <= t.sample && t.started
      && (BasePath(name) in s.backup ==> Same(s, t, BasePath(name)))
      && (DiffPath(name, k) in s.backup ==> Same(s, t, DiffPath(name, k)))
      && (DiffPath(name, k) in t.backup ==> DiffPath(name, k) in s.backup);
    forall t, e | inv(t) && Step(t, e).Some? ensures inv(Step(t, e).value) {
      StepKeeps(t, e, name, k);
    }
    Invariance(Step, inv, s, es);
  }

  // ---------- What a run stores ----------

  /** Every entry has a name that a directory can hold, and no sample to come has a diff. */
  ghost predicate Inv(s: State) {
    && (forall p :: p in s.backup ==> EntryFits(p))
    && (forall name, k :: s.sample < k ==> DiffPath(name, k) !in s.backup)
  }

  lemma {:induction false} CopyBasesFit(s: State, listed: seq<Copy>)
    requires Inv(s)
    ensures Inv(CopyBases(s, listed)) && CopyBases(s, listed) == s.(backup := CopyBases(s, listed).backup)
    decreases |listed|
  {
    if listed != [] {
      forall name, k: nat ensures BasePath(RelativeName(listed[0].path, s.dir)) != DiffPath(name, k) {
        BaseIsNoDiff(RelativeName(listed[0].path, s.dir), name, k);
      }
      CopyBasesFit(CopyBase(s, listed[0].path, listed[0].opens), listed[1..]);
    }
  }

  lemma {:induction false} BackUpFilesFit(s: State, now: nat, turns: seq<Turn>)
    requires forall p :: p in s.backup ==> EntryFits(p)
    ensures forall p :: p in BackUpFiles(s, now, turns).backup ==> EntryFits(p)
    decreases |turns|
  {
    if turns != [] { BackUpFilesFit(BackUpFile(s, now, turns[0]), now, turns[1..]); }
  }

  lemma InvStep(s: State, e: Event)
    requires Inv(s) && Enabled(s, e)
    ensures Inv(Apply(s, e)) && Apply(s, e).dir == s.dir
  {
    match e
    case Start(listed) => CopyBasesFit(s, listed);
    case Sample(now, turns) =>
      var u := s.(sample := s.sample + 1);
      BackUpFilesFit(u, now, turns);
      BackUpFilesKeep(u, now, turns, "", 0);
      forall name, k: nat | u.sample < k ensures DiffPath(name, k) !in BackUpFiles(u, now, turns).backup {
        BackUpFilesKeep(u, now, turns, name, k);
      }
    case _ =>
  }

  lemma InvRun(s: State, es: seq<Event>)
    requires Init(s) && Exec(Step, s, es).Some?
    ensures Inv(Exec(Step, s, es).value) && Exec(Step, s, es).value.dir == s.dir
  {
    var inv := (t: State) => Inv(t) && t.dir == s.dir;
    forall t, e | inv(t) && Step(t, e).Some? ensures inv(Step(t, e).value) { InvStep(t, e); }
    Invariance(Step, inv, s, es);
  }

  /** The name that restore works out for a file of the monitored directory. */
  predicate Names(dir: string, filename: string, name: string) {
    filename != "" && |dir + "/" + filename| < MAX_PATH_LEN && RelativeName(dir + "/" + filename, dir) == name
  }

  /** A file whose flattened path is too long for a directory entry is never backed up: restoring it always fails. */
  lemma LongNamesAreNeverRestored(s: State, es: seq<Event>, filename: string, name: string, k: int, w: World)
    requires Init(s) && Exec(Step, s, es).Some? && Names(s.dir, filename, name) && !EntryFits(BasePath(name))
    ensures Restore(Exec(Step, s, es).value, filename, k, w) == None
  {
    InvRun(s, es);
    assert !EntryFits(Cut(BasePath(name)));
  }

  // ---------- What a sample stores ----------

  /** The diff file of a turn can be written. */
  predicate Stores(turn: Turn, diff: string) { turn.started && turn.diffOpens && EntryFits(diff) }

  lemma PrintedSame(s: State, t: State, base: string, turn: Turn)
    requires t.files == s.files && (base in s.backup <==> base in t.backup) && (base in s.backup ==> Same(s, t, base))
    ensures Printed(t, base, turn) == Printed(s, base, turn)
  {}

  lemma BackUpFileStores(s: State, now: nat, turn: Turn)
    requires var diff := DiffPath(RelativeName(turn.path, s.dir), s.sample);
             !Skipped(turn.path, s.dir) && Stores(turn, diff)
    ensures var t, name := BackUpFile(s, now, turn), RelativeName(turn.path, s.dir);
            && DiffPath(name, s.sample) in t.backup
            && t.backup[DiffPath(name, s.sample)] == DiffFile(t, BasePath(name), now, turn)
  {
    var name := RelativeName(turn.path, s.dir);
    var base := BasePath(name);
    var t := if base in s.backup then s else CopyBase(s, turn.path, turn.baseOpens);
    StoreDiffKeeps(t, name, s.sample, DiffFile(t, base, now, turn), name, s.sample);
    PrintedSame(t, BackUpFile(s, now, turn), base, turn);
  }

  lemma FirstTurnStores(s: State, now: nat, turn: Turn, rest: seq<Turn>)
    requires !Skipped(turn.path, s.dir) && Stores(turn, DiffPath(RelativeName(turn.path, s.dir), s.sample))
    requires NameAbsent(rest, s.dir, RelativeName(turn.path, s.dir))
    ensures var t, name := BackUpFiles(BackUpFile(s, now, turn), now, rest), RelativeName(turn.path, s.dir);
            && DiffPath(name, s.sample) in t.backup
            && t.backup[DiffPath(name, s.sample)] == DiffFile(t, BasePath(name), now, turn)
  {
    var u, name := BackUpFile(s, now, turn), RelativeName(turn.path, s.dir);
    BackUpFileKeeps(s, now, turn, name, s.sample);
    BackUpFileStores(s, now, turn);
    BackUpFilesKeep(u, now, rest, name, s.sample);
    PrintedSame(u, BackUpFiles(u, now, rest), BasePath(name), turn);
  }

  lemma {:induction false} BackUpFilesStore(s: State, now: nat, turns: seq<Turn>, i: nat)
    requires i < |turns| && !Skipped(turns[i].path, s.dir)
    requires Stores(turns[i], DiffPath(RelativeName(turns[i].path, s.dir), s.sample))
    requires NameAbsent(turns[i + 1..], s.dir, RelativeName(turns[i].path, s.dir))
    ensures var t, name := BackUpFiles(s, now, turns), RelativeName(turns[i].path, s.dir);
            && DiffPath(name, s.sample) in t.backup
            && t.backup[DiffPath(name, s.sample)] == DiffFile(t, BasePath(name), now, turns[i])
    decreases i
  {
    var turn := turns[i];
    var name := RelativeName(turn.path, s.dir);
    var u := BackUpFile(s, now, turns[0]);
    BackUpFileKeeps(s, now, turns[0], name, s.sample);
    if i == 0 {
      FirstTurnStores(s, now, turn, turns[1..]);
    } else {
      assert turns[1..][i - 1] == turn && turns[1..][i..] == turns[i + 1..];
      BackUpFilesStore(u, now, turns[1..], i - 1);
    }
  }

  /** The other way round: what stands under a name that only turns without a diff file have was there before. */
  lemma {:induction false} NothingStored(s: State, now: nat, turns: seq<Turn>, name: string)
    requires DiffPath(name, s.sample) !in s.backup
    requires forall i :: 0 <= i < |turns| && RelativeName(turns[i].path, s.dir) == name ==>
               !Stores(turns[i], DiffPath(name, s.sample))
    ensures DiffPath(name, s.sample) !in BackUpFiles(s, now, turns).backup
    decreases |turns|
  {
    if turns != [] {
      var u := BackUpFile(s, now, turns[0]);
      BackUpFileKeeps(s, now, turns[0], name, s.sample);
      if RelativeName(turns[0].path, s.dir) == name && BasePath(name) !in s.backup {
        CopyBaseKeeps(s, turns[0].path, turns[0].baseOpens, name, s.sample, s.sample);
      }
      forall i | 0 <= i < |turns[1..]| && RelativeName(turns[1..][i].path, u.dir) == name
        ensures !Stores(turns[1..][i], DiffPath(name, u.sample))
      {
        assert turns[1..][i] == turns[i + 1];
      }
      NothingStored(u, now, turns[1..], name);
    }
  }

  // ---------- Restoring a sample ----------

  lemma {:induction false} SafeBasename(path: string)
    requires ShellSafe(path)
    ensures ShellSafe(Basename(path))
    decreases |path|
  {
    if exists i :: 0 <= i < |path| && path[i] == '/' { SafeBasename(path[1..]); }
  }

  lemma SafeSlice(path: string, from: nat, to: nat)
    requires ShellSafe(path) && from <= to <= |path|
    ensures ShellSafe(path[from..to])
  {}

  lemma SafePiece(path: string)
    requires ShellSafe(path)
    ensures ShellSafe(Cut(path)) && ShellSafe(DropSlash(path)) && ShellSafe(Flatten(path))
  {
    SafeSlice(path, 0, if |path| < MAX_PATH_LEN then |path| else MAX_PATH_LEN - 1);
    if path != "" { SafeSlice(path, 1, |path|); }
  }

  lemma SafePart(path: string, dir: string)
    requires ShellSafe(path)
    ensures ShellSafe(NamePart(path, dir))
  {
    if !(dir <= path) {
      SafePiece(path);
    } else if |path| > |dir| {
      SafeSlice(path, |dir|, |path|);
      SafePiece(path[|dir|..]);
      SafePiece(Cut(path[|dir|..]));
    } else {
      SafeBasename(path);
      SafePiece(Basename(path));
    }
  }

  /** The names made from a path that the shell leaves alone are left alone as well. */
  lemma SafeName(path: string, dir: string)
    requires ShellSafe(path)
    ensures ShellSafe(RelativeName(path, dir))
  {
    SafePart(path, dir);
    SafePiece(NamePart(path, dir));
  }

  lemma SafeNumber(n: nat)
    ensures ShellSafe(Decimal(n))
  {
    var ds := Decimal(n);
    forall i | 0 <= i < |ds| ensures ds[i] != '"' && ds[i] != '$' && ds[i] != '`' && ds[i] != '\\' {
      assert IsDigit(ds[i]);
    }
  }

  lemma SafeConcat(a: string, b: string)
    requires ShellSafe(a) && ShellSafe(b)
    ensures ShellSafe(a + b)
  {}

  lemma SafeEntry(entry: string)
    requires ShellSafe(entry)
    ensures ShellSafe(InBackupDir(entry))
  {
    SafeConcat(BACKUP_DIR + "/", entry);
  }

  lemma SafePaths(name: string, k: nat, w: World)
    requires ShellSafe(name)
    ensures ShellSafe(BasePath(name)) && ShellSafe(TempPath(name, w)) && ShellSafe(CleanPath(name, k, w))
  {
    SafeNumber(k);
    SafeNumber(w.pid);
    SafeConcat("full_", name);
    SafeEntry("full_" + name);
    SafeConcat("temp_restore_", name);
    SafeConcat("temp_restore_" + name, "_");
    SafeConcat("temp_restore_" + name + "_", Decimal(w.pid));
    SafeEntry("temp_restore_" + name + "_" + Decimal(w.pid));
    SafeConcat("temp_clean_diff_", name);
    SafeConcat("temp_clean_diff_" + name, "_");
    SafeConcat("temp_clean_diff_" + name + "_", Decimal(k));
    SafeConcat("temp_clean_diff_" + name + "_" + Decimal(k), "_");
    SafeConcat("temp_clean_diff_" + name + "_" + Decimal(k) + "_", Decimal(w.pid));
    SafeEntry("temp_clean_diff_" + name + "_" + Decimal(k) + "_" + Decimal(w.pid));
  }

  /** The patch command is never cut: both of its paths are names of the backup directory. */
  lemma PatchCommandFits(temp: string, clean: string)
    requires EntryFits(temp) && EntryFits(clean)
    ensures |PatchCommand(temp, clean)| < COMMAND_SIZE
  {}

  /** The files that restore writes can be opened. */
  predicate CanRestore(dir: string, filename: string, name: string, k: nat, w: World) {
    && Opens(w, TempPath(name, w)) && Opens(w, CleanPath(name, k, w))
    && |RestoredName(filename, k)| <= NAME_MAX && Cut(dir + "/" + RestoredName(filename, k)) !in w.locked
  }

  /**
   What restore makes of the diff of a turn: the base copy if the diff command was cut, nothing if the diff
   has a line "---", and otherwise the content.
   */
  function Outcome(base: string, content: string, turn: Turn, basePath: string): Option<string> {
    if !StillCompares(DiffCommand(basePath, turn.path), turn.writable) then Some(base)
    else if base == content || NoDashes(turn.diff.hunks) then Some(content)
    else None
  }

  function Delivered(dir: string, filename: string, k: nat, content: Option<string>): Option<Restored> {
    if content.None? then None else Some(Restored(Cut(dir + "/" + RestoredName(filename, k)), content.value))
  }

  /** diff does what it promises for the two contents, and its lines fit the line buffer. */
  predicate Honest(turn: Turn, base: string, content: string) {
    base != content ==> Describes(turn.diff.hunks, base, content) && OutputFits(turn.diff)
  }

  lemma PatchOfDiffFile(m: Metadata, s: State, basePath: string, turn: Turn)
    requires Fits(m) && basePath in s.backup && turn.path in s.files && ShellSafe(basePath) && ShellSafe(turn.path)
    requires Honest(turn, s.backup[basePath], s.files[turn.path])
    ensures var base := s.backup[basePath];
            Patch(base, Strip(WithMetadata(m, Printed(s, basePath, turn)))) ==
              Outcome(base, s.files[turn.path], turn, basePath)
  {
    if StillCompares(DiffCommand(basePath, turn.path), turn.writable) {
      RestoreIffNoDashes(m, turn.diff, s.backup[basePath], s.files[turn.path]);
    } else {
      StripDropsMetadata(m, "");
    }
  }

  lemma CutEntry(path: string)
    ensures EntryFits(path) ==> Cut(path) == path
    ensures EntryFits(Cut(path)) <==> EntryFits(path)
  {}

  lemma CutPaths(name: string, k: nat, w: World)
    requires EntryFits(BasePath(name)) && EntryFits(DiffPath(name, k))
    ensures Cut(BasePath(name)) == BasePath(name) && Cut(DiffPath(name, k)) == DiffPath(name, k)
    ensures Opens(w, Cut(TempPath(name, w))) <==> Opens(w, TempPath(name, w))
    ensures Opens(w, TempPath(name, w)) ==> Cut(TempPath(name, w)) == TempPath(name, w)
    ensures Opens(w, Cut(CleanPath(name, k, w))) <==> Opens(w, CleanPath(name, k, w))
    ensures Opens(w, CleanPath(name, k, w)) ==> Cut(CleanPath(name, k, w)) == CleanPath(name, k, w)
  {
    CutEntry(BasePath(name));
    CutEntry(DiffPath(name, k));
    CutEntry(TempPath(name, w));
    CutEntry(CleanPath(name, k, w));
  }

  /** With both temporary files open the intended command runs. */
  lemma PatchedFrom(base: string, diff: string, name: string, k: nat, w: World)
    requires ShellSafe(name) && Opens(w, TempPath(name, w))
    ensures Opens(w, CleanPath(name, k, w)) ==>
              Patched(base, diff, TempPath(name, w), CleanPath(name, k, w), w) == Patch(base, Strip(diff))
    ensures !Opens(w, CleanPath(name, k, w)) ==>
            Patched(base, diff, TempPath(name, w), Cut(CleanPath(name, k, w)), w) == None
  {
    SafePaths(name, k, w);
    CutEntry(CleanPath(name, k, w));
    if Opens(w, CleanPath(name, k, w)) { PatchCommandFits(TempPath(name, w), CleanPath(name, k, w)); }
    SafeCut(CleanPath(name, k, w));
    Refused(w, CleanPath(name, k, w));
  }

  lemma SafeCut(path: string)
    requires ShellSafe(path)
    ensures ShellSafe(Cut(path))
  {}

  lemma Refused(w: World, path: string)
    ensures !Opens(w, path) ==> !Opens(w, Cut(path))
  {
    CutEntry(path);
  }

  lemma RestoreFrom(v: State, filename: string, name: string, k: nat, w: World)
    requires Names(v.dir, filename, name) && ShellSafe(name) && 1 <= k <= v.sample
    requires BasePath(name) in v.backup && EntryFits(BasePath(name)) && DiffPath(name, k) in v.backup
             && EntryFits(DiffPath(name, k))
    ensures Restore(v, filename, k, w) ==
            if !CanRestore(v.dir, filename, name, k, w) then None
            else Delivered(v.dir, filename, k, Patch(v.backup[BasePath(name)], Strip(v.backup[DiffPath(name, k)])))
  {
    CutPaths(name, k, w);
    if Opens(w, TempPath(name, w)) {
      PatchedFrom(v.backup[BasePath(name)], v.backup[DiffPath(name, k)], name, k, w);
    }
  }

  lemma RestoreWithoutDiff(v: State, filename: string, name: string, k: nat, w: World)
    requires Names(v.dir, filename, name) && 1 <= k <= v.sample && |DiffPath(name, k)| < MAX_PATH_LEN
    requires BasePath(name) in v.backup && EntryFits(BasePath(name)) && DiffPath(name, k) !in v.backup
    requires CanRestore(v.dir, filename, name, k, w)
    ensures Restore(v, filename, k, w) == Delivered(v.dir, filename, k, Some(v.backup[BasePath(name)]))
  {
    CutEntry(BasePath(name));
    CutEntry(TempPath(name, w));
  }

  /**
   Take any run of the daemon, a sample in it, the last of its changed files that have one name, and any
   continuation.  If that file still existed, its path is plain text for the shell and its diff could be
   stored, restoring the name to that sample gives `Outcome`: the content of that moment, unless the diff
   command was cut (then the base copy, reported as a success) or the diff has a line "---" (then restore
   fails); and nothing if restore cannot open one of its files.  With distinct names this is every changed
   file's own content; of several files with one name the last wins.
   */
  lemma RestoreGivesTheSample(s: State, now: nat, turns: seq<Turn>, i: nat, filename: string, fs: seq<Event>, w: World)
    requires s.started && i < |turns| && turns[i].path in s.files && Basename(turns[i].path) != "debug.log"
    requires Exec(Step, Apply(s, Sample(now, turns)), fs).Some?
    requires var turn, t := turns[i], Apply(s, Sample(now, turns));
             var name, k := RelativeName(turn.path, s.dir), s.sample + 1;
             && Names(s.dir, filename, name) && NameAbsent(turns[i + 1..], s.dir, name)
             && ShellSafe(turn.path) && Stores(turn, DiffPath(name, k)) && BasePath(name) in t.backup
             && Fits(Metadata(now, k, BasePath(name), turn.path))
             && Honest(turn, t.backup[BasePath(name)], s.files[turn.path])
    ensures var turn, t := turns[i], Apply(s, Sample(now, turns));
            var name, k := RelativeName(turn.path, s.dir), s.sample + 1;
            Restore(Exec(Step, t, fs).value, filename, k, w) ==
            if !CanRestore(s.dir, filename, name, k, w) then None
            else Delivered(s.dir, filename, k,
                           Outcome(t.backup[BasePath(name)], s.files[turn.path], turn, BasePath(name)))
  {
    var turn, t, k := turns[i], Apply(s, Sample(now, turns)), s.sample + 1;
    var name := RelativeName(turn.path, s.dir);
    SampleStores(s, now, turns, i);
    SafeName(turn.path, s.dir);
    SafePaths(name, k, w);
    PatchOfDiffFile(Metadata(now, k, BasePath(name), turn.path), t, BasePath(name), turn);
    HistoryIsFixed(t, fs, name, k);
    RestoreFrom(Exec(Step, t, fs).value, filename, name, k, w);
  }

  lemma SampleStores(s: State, now: nat, turns: seq<Turn>, i: nat)
    requires s.started && i < |turns| && Basename(turns[i].path) != "debug.log"
    requires var name := RelativeName(turns[i].path, s.dir);
             Stores(turns[i], DiffPath(name, s.sample + 1)) && NameAbsent(turns[i + 1..], s.dir, name)
    ensures var t, name := Apply(s, Sample(now, turns)), RelativeName(turns[i].path, s.dir);
            && t.dir == s.dir && t.files == s.files && t.sample == s.sample + 1 && t.started
            && EntryFits(BasePath(name)) && DiffPath(name, t.sample) in t.backup
            && t.backup[DiffPath(name, t.sample)] == DiffFile(t, BasePath(name), now, turns[i])
  {
    var u, name := s.(sample := s.sample + 1), RelativeName(turns[i].path, s.dir);
    NotSkipped(turns[i].path, s.dir, name, u.sample);
    StoredBy(u, now, turns, i, name, Apply(s, Sample(now, turns)));
  }

  lemma NotSkipped(path: string, dir: string, name: string, k: nat)
    requires name == RelativeName(path, dir) && Basename(path) != "debug.log" && EntryFits(DiffPath(name, k))
    ensures !Skipped(path, dir) && EntryFits(BasePath(name))
  {
    BaseFits(name, k);
  }

  lemma BaseFits(name: string, k: nat)
    requires EntryFits(DiffPath(name, k))
    ensures EntryFits(BasePath(name)) && |BasePath(name)| < MAX_PATH_LEN
  {}

  lemma StoredBy(u: State, now: nat, turns: seq<Turn>, i: nat, name: string, t: State)
    requires i < |turns| && !Skipped(turns[i].path, u.dir) && name == RelativeName(turns[i].path, u.dir)
    requires Stores(turns[i], DiffPath(name, u.sample)) && NameAbsent(turns[i + 1..], u.dir, name)
    requires t == BackUpFiles(u, now, turns)
    ensures t == u.(backup := t.backup) && DiffPath(name, u.sample) in t.backup
    ensures t.backup[DiffPath(name, u.sample)] == DiffFile(t, BasePath(name), now, turns[i])
  {
    BackUpFilesKeep(u, now, turns, name, u.sample);
    BackUpFilesStore(u, now, turns, i);
  }

  /**
   A sample in which no turn of a name could store a diff, because its name is too long or a call failed:
   restoring it gives the base copy and reports success.
   */
  lemma UnstoredSampleGivesBase(r: State, es: seq<Event>, now: nat, turns: seq<Turn>, filename: string, name: string,
                                fs: seq<Event>, w: World)
    requires Init(r) && Exec(Step, r, es).Some? && Exec(Step, r, es).value.started
    requires var s := Exec(Step, r, es).value;
             var t := Apply(s, Sample(now, turns));
             && Exec(Step, t, fs).Some? && Names(s.dir, filename, name) && BasePath(name) in t.backup
             && |DiffPath(name, t.sample)| < MAX_PATH_LEN && CanRestore(s.dir, filename, name, t.sample, w)
             && forall i :: 0 <= i < |turns| && RelativeName(turns[i].path, s.dir) == name ==>
                  !Stores(turns[i], DiffPath(name, s.sample + 1))
    ensures var s := Exec(Step, r, es).value;
            var t := Apply(s, Sample(now, turns));
            Restore(Exec(Step, t, fs).value, filename, t.sample, w) ==
            Delivered(s.dir, filename, t.sample, Some(t.backup[BasePath(name)]))
  {
    var s := Exec(Step, r, es).value;
    var u, t := s.(sample := s.sample + 1), Apply(s, Sample(now, turns));
    InvRun(r, es);
    InvStep(s, Sample(now, turns));
    BackUpFilesKeep(u, now, turns, name, u.sample);
    NothingStored(u, now, turns, name);
    HistoryIsFixed(t, fs, name, t.sample);
    assert EntryFits(BasePath(name));
    RestoreWithoutDiff(Exec(Step, t, fs).value, filename, name, t.sample, w);
  }

  // ---------- Where it fails ----------

  /** How long the two paths may be for the diff command to work. */
  lemma WhenTheCommandIsCut(older: string, newer: string, writable: set<string>)
    ensures StillCompares(DiffCommand(older, newer), writable) <==>
              var n := |older| + |newer|;
              n <= 2022 || n == 2033 || n == 2034 || (n <= 2030 && "/dev/null"[..2031 - n] in writable)
  {
    CommandLength(older, newer);
  }

  /** A file whose path and base path together exceed 2034 characters is restored to its base copy, as a success. */
  lemma LongPathsRestoreTheBase(base: string, content: string, turn: Turn, basePath: string)
    requires 2034 < |basePath| + |turn.path|
    ensures Outcome(base, content, turn, basePath) == Some(base)
  {
    CommandLength(basePath, turn.path);
  }

  lemma NameInDir(dir: string, p: string)
    requires p != "" && p[0] != '/' && |p| + 1 < MAX_PATH_LEN
    ensures RelativeName(dir + "/" + p, dir) == Flatten(p)
  {
    var path, tail := dir + "/" + p, "/" + p;
    Assoc(dir, "/", p);
    DropFront(dir, tail);
    PartIs(path, dir, tail, p);
  }

  lemma DropFront<T>(a: seq<T>, b: seq<T>)
    ensures (a + b)[|a|..] == b && a <= a + b
  {}

  lemma PartIs(path: string, dir: string, tail: string, p: string)
    requires dir <= path && path[|dir|..] == tail == "/" + p && |tail| < MAX_PATH_LEN
    ensures NamePart(path, dir) == p
  {
    assert |path| > |dir| && tail[0] == '/' && tail[1..] == p;
  }

  predicate IsGap(c: char) { c == '/' || c == '_' }

  /** Two files of a directory share a name exactly when their paths differ in nothing but '/' against '_'. */
  lemma NamesCollideIff(dir: string, p: string, q: string)
    requires p != "" && p[0] != '/' && |p| + 1 < MAX_PATH_LEN && q != "" && q[0] != '/' && |q| + 1 < MAX_PATH_LEN
    ensures RelativeName(dir + "/" + p, dir) == RelativeName(dir + "/" + q, dir) <==>
              |p| == |q| && forall i :: 0 <= i < |p| ==> p[i] == q[i] || (IsGap(p[i]) && IsGap(q[i]))
  {
    NameInDir(dir, p);
    NameInDir(dir, q);
    FlattenEqualIff(p, q);
  }

  lemma FlattenEqualIff(p: string, q: string)
    ensures Flatten(p) == Flatten(q) <==>
              |p| == |q| && forall i :: 0 <= i < |p| ==> p[i] == q[i] || (IsGap(p[i]) && IsGap(q[i]))
  {
    FlattenedEqualIff(p, q, Flatten(p), Flatten(q));
  }

  /** a and b are p and q with '/' replaced. */
  lemma FlattenedEqualIff(p: string, q: string, a: string, b: string)
    requires |a| == |p| && forall i :: 0 <= i < |p| ==> a[i] == if p[i] == '/' then '_' else p[i]
    requires |b| == |q| && forall i :: 0 <= i < |q| ==> b[i] == if q[i] == '/' then '_' else q[i]
    ensures a == b <==> |p| == |q| && forall i :: 0 <= i < |p| ==> p[i] == q[i] || (IsGap(p[i]) && IsGap(q[i]))
  {
    if a == b {
      forall i | 0 <= i < |p| ensures p[i] == q[i] || (IsGap(p[i]) && IsGap(q[i])) {
        assert a[i] == b[i];
      }
    }
    if |p| == |q| && forall i :: 0 <= i < |p| ==> p[i] == q[i] || (IsGap(p[i]) && IsGap(q[i])) {
      forall i | 0 <= i < |a| ensures a[i] == b[i] {}
    }
  }

  /** The directory itself is named by its last component, a path elsewhere by all of it. */
  lemma OtherNames(dir: string, path: string)
    ensures |Basename(dir)| < MAX_PATH_LEN ==> RelativeName(dir, dir) == Basename(dir)
    ensures !(dir <= path) && |path| < MAX_PATH_LEN ==>
              |RelativeName(path, dir)| == |path| && forall i :: 0 <= i < |path| ==>
                RelativeName(path, dir)[i] == if path[i] == '/' then '_' else path[i]
  {
    NoSlashIn(dir);
    if |Basename(dir)| < MAX_PATH_LEN {
      var name := Basename(dir);
      assert Flatten(name) == name;
    }
  }

  lemma {:induction false} NoSlashIn(path: string)
    ensures '/' !in Basename(path)
    decreases |path|
  {
    if exists i :: 0 <= i < |path| && path[i] == '/' { NoSlashIn(path[1..]); }
  }

  /** a/b and a_b are such a pair, in every directory. */
  lemma NameOfExample(dir: string)
    ensures RelativeName(dir + "/" + "a/b", dir) == "a_b" && RelativeName(dir + "/" + "a_b", dir) == "a_b"
  {
    NameInDir(dir, "a/b");
    NameInDir(dir, "a_b");
    assert Flatten("a/b") == "a_b" && Flatten("a_b") == "a_b";
  }

  /** When two files of one name both change in a sample, restoring the first gives what the second held. */
  lemma CollisionRestoresTheOther(s: State, now: nat, p: string, first: Turn, second: Turn, w: World)
    requires s.started && first.path == s.dir + "/" + p && second.path in s.files
             && Basename(second.path) != "debug.log"
    requires var t, name, k := Apply(s, Sample(now, [first, second])), RelativeName(second.path, s.dir), s.sample + 1;
             && Names(s.dir, p, name) && ShellSafe(second.path) && Stores(second, DiffPath(name, k))
             && BasePath(name) in t.backup && Fits(Metadata(now, k, BasePath(name), second.path))
             && Honest(second, t.backup[BasePath(name)], s.files[second.path]) && NoDashes(second.diff.hunks)
             && |BasePath(name)| + |second.path| <= 2022 && CanRestore(s.dir, p, name, k, w)
    ensures var t, k := Apply(s, Sample(now, [first, second])), s.sample + 1;
            Restore(t, p, k, w) == Delivered(s.dir, p, k, Some(s.files[second.path]))
  {
    assert [first, second][2..] == [];
    WhenTheCommandIsCut(BasePath(RelativeName(second.path, s.dir)), second.path, second.writable);
    RestoreGivesTheSample(s, now, [first, second], 1, p, [], w);
  }
}
