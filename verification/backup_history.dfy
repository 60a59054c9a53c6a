/**
 The backup directory over the life of the daemon: one base copy a name, and diffs from it sample by
 sample.  Every call that opens a file or starts a command may fail; a command line longer than its buffer
 is cut.
 */
module BackupHistory {
  import opened CText
  import opened Runs
  import opened MetadataFilter
  import opened LineDiff

  const BACKUP_DIR := "/tmp/daemon_backups"
  const MAX_PATH_LEN := 4096
  const NAME_MAX := 255       // bytes in a directory entry
  const COMMAND_SIZE := 2048

  // ---------- Names ----------

  /** snprintf or strncpy into a path buffer: all of s, or as much of it as fits with the final NUL. */
  function Cut(s: string): (r: string)
    ensures r <= s && |r| < MAX_PATH_LEN && (r != s ==> |r| + 1 == MAX_PATH_LEN)
  {
     if |s| < MAX_PATH_LEN then s else s[..MAX_PATH_LEN - 1]
  }

  function Basename(path: string): string
    decreases |path|
  {
    if exists i :: 0 <= i < |path| && path[i] == '/' then Basename(path[1..]) else path
  }

  function Flatten(s: string): (r: string)
    ensures |r| == |s| && forall i :: 0 <= i < |s| ==> r[i] == if s[i] == '/' then '_' else s[i]
  {
    if s == "" then "" else [if s[0] == '/' then '_' else s[0]] + Flatten(s[1..])
  }

  function DropSlash(s: string): string { if s != "" && s[0] == '/' then s[1..] else s }

  /** The part of a path that names its copies. */
  function NamePart(path: string, dir: string): string {
    if !(dir <= path) then Cut(path)
    else if |path| > |dir| then DropSlash(Cut(path[|dir|..]))
    else Cut(Basename(path))
  }

  /** make_backup_relative_path */
  function RelativeName(path: string, dir: string): string { Flatten(NamePart(path, dir)) }

  function InBackupDir(entry: string): string { BACKUP_DIR + "/" + entry }

  function BasePath(name: string): string { InBackupDir("full_" + name) }

  function DiffPath(name: string, sample: nat): string { InBackupDir("diff_" + (name + "_sample_" + Decimal(sample))) }

  /** A file of the backup directory can have this name. */
  predicate EntryFits(path: string) { |path| <= |BACKUP_DIR| + 1 + NAME_MAX }

  lemma BaseIsNoDiff(name: string, other: string, sample: nat)
    ensures BasePath(name) != DiffPath(other, sample)
  {
    var k := |BACKUP_DIR| + 1;
    assert BasePath(name)[k] == 'f' && DiffPath(other, sample)[k] == 'd';
  }

  lemma BasePathsDiffer(name: string, other: string)
    requires BasePath(name) == BasePath(other)
    ensures name == other
  {
    var n := |BACKUP_DIR| + 6;
    assert BasePath(name)[n..] == name && BasePath(other)[n..] == other;
  }

  lemma TailsEqual(a: string, b: string, x: string, y: string)
    requires a + x == b + y && |x| == |y|
    ensures a == b && x == y
  {
    assert |a| == |b|;
    assert a == (a + x)[..|a|] && b == (b + y)[..|b|];
    assert x == (a + x)[|a|..] && y == (b + y)[|b|..];
  }

  lemma LastUnderscore(s: string, a: string, k: nat)
    requires a != "" && a[|a| - 1] == '_' && s == a + Decimal(k)
    ensures s[|a| - 1] == '_' && forall j :: |a| <= j < |s| ==> s[j] != '_'
  {
    var x := Decimal(k);
    forall j | |a| <= j < |s| ensures s[j] != '_' {
      assert s[j] == x[j - |a|] && IsDigit(x[j - |a|]);
    }
  }

  /** The number at the end of "..._k" is determined by the text. */
  lemma NumbersEqual(a: string, b: string, j: nat, k: nat)
    requires a != "" && b != "" && a[|a| - 1] == '_' && b[|b| - 1] == '_'
    requires a + Decimal(j) == b + Decimal(k)
    ensures a == b && j == k
  {
    var x, y := Decimal(j), Decimal(k);
    var s := a + x;
    LastUnderscore(s, a, j);
    LastUnderscore(s, b, k);
    TailsEqual(a, b, x, y);
    ValueOfDecimal(j);
    ValueOfDecimal(k);
  }

  /** Different samples or names have different diff files. */
  lemma DiffPathsDiffer(name: string, j: nat, other: string, k: nat)
    requires DiffPath(name, j) == DiffPath(other, k)
    ensures name == other && j == k
  {
    var n := |BACKUP_DIR| + 6;
    var a, b := name + "_sample_", other + "_sample_";
    assert DiffPath(name, j)[n..] == a + Decimal(j);
    assert DiffPath(other, k)[n..] == b + Decimal(k);
    NumbersEqual(a, b, j, k);
    TailsEqual(name, other, "_sample_", "_sample_");
  }

  // ---------- Commands ----------

  /** Between double quotes the shell leaves every other character alone. */
  predicate ShellSafe(path: string) {
    forall i :: 0 <= i < |path| ==> path[i] != '"' && path[i] != '$' && path[i] != '`' && path[i] != '\\'
  }

  function DiffCommand(older: string, newer: string): string {
    "diff -u \"" + (older + ("\" \"" + (newer + "\" 2>/dev/null")))
  }

  /**
   The command in its buffer still compares the two files: it is whole, or it has lost all of its last
   word, or part of it and the shell can write to the file that is left.  Any other cut leaves a string
   open, an operand missing or a file that cannot be written, and nothing is printed.
   */
  predicate StillCompares(command: string, writable: set<string>) {
    var lost := |command| - (COMMAND_SIZE - 1);
    lost <= 0 || lost == 11 || lost == 12 || (lost <= 8 && "/dev/null"[..9 - lost] in writable)
  }

  lemma CommandLength(older: string, newer: string)
    ensures |DiffCommand(older, newer)| == |older| + |newer| + 25
  {}

  // ---------- The run ----------

  /** The monitored files and the files of the backup directory, by path; started: the daemon is in its loop. */
  datatype State = State(dir: string, files: map<string, string>, backup: map<string, string>, sample: nat,
                         started: bool)

  /** A file to copy; whether the copy can be opened for writing. */
  datatype Copy = Copy(path: string, opens: bool)

  /**
   A changed file: what diff prints for it and its base copy, what comes out of a command line that is not
   the one intended, which of the calls succeed, and which cut names the shell can write to.
   */
  datatype Turn = Turn(path: string, diff: Output, odd: string,
                       started: bool, baseOpens: bool, diffOpens: bool, writable: set<string>)

  datatype Event =
    | Write(path: string, content: string) | Delete(path: string)   // by others
    | Start(listed: seq<Copy>)                                      // create_full_backup
    | Sample(now: nat, turns: seq<Turn>)                            // create_incremental_backup

  predicate Skipped(path: string, dir: string) {
    Basename(path) == "debug.log" || |BasePath(RelativeName(path, dir))| >= MAX_PATH_LEN
  }

  function CopyBase(s: State, path: string, opens: bool): State {
    var base := BasePath(RelativeName(path, s.dir));
    if Skipped(path, s.dir) || path !in s.files || !opens || !EntryFits(base) then s
    else s.(backup := s.backup[base := s.files[path]])
  }

  function CopyBases(s: State, listed: seq<Copy>): State
    decreases |listed|
  {
    if listed == [] then s else CopyBases(CopyBase(s, listed[0].path, listed[0].opens), listed[1..])
  }

  /** The output of the diff command for a file whose base copy is at `base`; nothing if one of them is missing. */
  function Printed(s: State, base: string, turn: Turn): string {
    if !ShellSafe(base) || !ShellSafe(turn.path) then turn.odd
    else if StillCompares(DiffCommand(base, turn.path), turn.writable) && base in s.backup && turn.path in s.files then
      DiffText(turn.diff, s.backup[base], s.files[turn.path])
    else ""
  }

  /** What save_diff stores. */
  function DiffFile(s: State, base: string, now: nat, turn: Turn): string {
    WithMetadata(Metadata(now, s.sample, base, turn.path), Printed(s, base, turn))
  }

  /** One turn of the loop of create_incremental_backup. */
  function BackUpFile(s: State, now: nat, turn: Turn): State {
    if Skipped(turn.path, s.dir) then s
    else
      var name := RelativeName(turn.path, s.dir);
      var base, diff := BasePath(name), DiffPath(name, s.sample);
      var t := if base in s.backup then s else CopyBase(s, turn.path, turn.baseOpens);
      if |diff| >= MAX_PATH_LEN || !turn.started || !turn.diffOpens || !EntryFits(diff) then t
      else t.(backup := t.backup[diff := DiffFile(t, base, now, turn)])
  }

  function BackUpFiles(s: State, now: nat, turns: seq<Turn>): State
    decreases |turns|
  {
    if turns == [] then s else BackUpFiles(BackUpFile(s, now, turns[0]), now, turns[1..])
  }

  predicate Enabled(s: State, e: Event) {
    match e
    case Start(_) => !s.started
    case Sample(_, _) => s.started
    case _ => true
  }

  function Apply(s: State, e: Event): State {
    match e
    case Write(path, content) => s.(files := s.files[path := content])
    case Delete(path) => s.(files := s.files - {path})
    case Start(listed) => CopyBases(s, listed).(started := true)
    case Sample(now, turns) => BackUpFiles(s.(sample := s.sample + 1), now, turns)
  }

  function Step(s: State, e: Event): (r: Option<State>) {
    if Enabled(s, e) then Some(Apply(s, e)) else None
  }

  /** The backup directory starts empty. */
  predicate Init(s: State) { s == State(s.dir, s.files, map[], 0, false) }

  // ---------- Restoring ----------

  /**
   The process number in the names of temporary files, the files that cannot be opened for writing, and what
   a patch command that is not the one intended makes of the file.
   */
  datatype World = World(pid: nat, locked: set<string>, odd: Option<string>)

  predicate Opens(w: World, path: string) { EntryFits(path) && path !in w.locked }

  function TempPath(name: string, w: World): string { InBackupDir("temp_restore_" + name + "_" + Decimal(w.pid)) }

  function CleanPath(name: string, target: nat, w: World): string {
    InBackupDir("temp_clean_diff_" + name + "_" + Decimal(target) + "_" + Decimal(w.pid))
  }

  function PatchCommand(temp: string, clean: string): string {
    "patch -u \"" + (temp + ("\" < \"" + (clean + "\" 2>/dev/null")))
  }

  /** The base copy after the patch command, if it succeeds. */
  function Patched(base: string, diff: string, temp: string, clean: string, w: World): Option<string> {
    if !ShellSafe(temp) || !ShellSafe(clean) then w.odd
    else if |PatchCommand(temp, clean)| >= COMMAND_SIZE || !Opens(w, clean) then None
    else Patch(base, Strip(diff))
  }

  /** The name of the restored file: "_restored_k" before the extension. */
  function RestoredName(filename: string, target: nat): string {
    var name := Basename(filename);
    var d := LastDot(name);
    Cut(if d == |name| then name + "_restored_" + Decimal(target)
        else name[..d] + "_restored_" + Decimal(target) + name[d..])
  }

  function LastDot(s: string): (d: nat)
    ensures d <= |s| && (d < |s| ==> s[d] == '.') && (d == |s| ==> '.' !in s)
    ensures forall i :: d < i < |s| ==> s[i] != '.'
  {
    if s == "" then 0
    else if s[|s| - 1] == '.' then |s| - 1
    else
      var d := LastDot(s[..|s| - 1]);
      if d == |s| - 1 then |s| else d
  }

  /** restore_file_to_sample: where the content is written, and what it is. */
  datatype Restored = Restored(path: string, content: string)

  function Restore(s: State, filename: string, target: int, w: World): Option<Restored> {
    if filename == "" || target < 1 || target > s.sample then None
    else
      var name := RelativeName(Cut(s.dir + "/" + filename), s.dir);
      var base, temp := Cut(BasePath(name)), Cut(TempPath(name, w));
      if base !in s.backup || !Opens(w, temp) then None
      else
        var diff, clean := Cut(DiffPath(name, target)), Cut(CleanPath(name, target, w));
        var content :=
          if diff in s.backup then Patched(s.backup[base], s.backup[diff], temp, clean, w)
          else Some(s.backup[base]);
        var path := Cut(s.dir + "/" + RestoredName(filename, target));
        if content.None? || |RestoredName(filename, target)| > NAME_MAX || path in w.locked then None
        else Some(Restored(path, content.value))
  }
}
