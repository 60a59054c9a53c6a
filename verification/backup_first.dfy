/** Where base copies come from: the first backup, and the first sample of a file that came later. */
module FirstBackup {
  import opened Runs
  import opened BackupHistory
  import opened BackupTheorems

  /** The copy of this file is made. */
  predicate Copies(s: State, path: string, opens: bool) {
    !Skipped(path, s.dir) && path in s.files && opens && EntryFits(BasePath(RelativeName(path, s.dir)))
  }

  /** Entry i of the list makes the base copy of `name`. */
  predicate MakesBase(s: State, listed: seq<Copy>, i: nat, name: string) {
    i < |listed| && RelativeName(listed[i].path, s.dir) == name && Copies(s, listed[i].path, listed[i].opens)
  }

  predicate LastToMake(s: State, listed: seq<Copy>, i: nat, name: string) {
    MakesBase(s, listed, i, name) && forall j :: i < j < |listed| ==> !MakesBase(s, listed, j, name)
  }

  lemma CopyBaseIs(s: State, path: string, opens: bool, name: string)
    ensures var t, own := CopyBase(s, path, opens), RelativeName(path, s.dir);
            && t == s.(backup := t.backup)
            && (BasePath(name) in t.backup <==> BasePath(name) in s.backup || (own == name && Copies(s, path, opens)))
            && (own == name && Copies(s, path, opens) ==> t.backup[BasePath(name)] == s.files[path])
            && (BasePath(name) in s.backup && !(own == name && Copies(s, path, opens)) ==> Same(s, t, BasePath(name)))
  {
    var own := RelativeName(path, s.dir);
    if BasePath(name) == BasePath(own) { BasePathsDiffer(name, own); }
  }

  /** The last entry of the list that copies a name decides; without one nothing changes. */
  lemma {:induction false} CopyBasesAre(s: State, listed: seq<Copy>, name: string)
    ensures var t := CopyBases(s, listed);
            && t == s.(backup := t.backup)
            && (BasePath(name) in t.backup <==>
                  BasePath(name) in s.backup || exists i: nat :: MakesBase(s, listed, i, name))
            && (forall i: nat :: LastToMake(s, listed, i, name) ==>
                  BasePath(name) in t.backup && t.backup[BasePath(name)] == s.files[listed[i].path])
            && ((forall i: nat :: !MakesBase(s, listed, i, name)) && BasePath(name) in s.backup ==>
                  Same(s, t, BasePath(name)))
    decreases |listed|
  {
    if listed != [] {
      var u, rest := CopyBase(s, listed[0].path, listed[0].opens), listed[1..];
      CopyBaseIs(s, listed[0].path, listed[0].opens, name);
      CopyBasesAre(u, rest, name);
      MakersShift(s, u, listed, name);
      var t := CopyBases(s, listed);
      forall i: nat | LastToMake(s, listed, i, name)
        ensures BasePath(name) in t.backup && t.backup[BasePath(name)] == s.files[listed[i].path]
      {
        if i == 0 {
          forall j: nat ensures !MakesBase(u, rest, j, name) {
            assert !MakesBase(s, listed, j + 1, name);
          }
        } else {
          LastShifts(s, u, listed, i, name);
        }
      }
    }
  }

  lemma MakersShift(s: State, u: State, listed: seq<Copy>, name: string)
    requires listed != [] && u == s.(backup := u.backup)
    ensures forall i: nat :: MakesBase(u, listed[1..], i, name) <==> MakesBase(s, listed, i + 1, name)
    ensures (exists i: nat :: MakesBase(s, listed, i, name)) <==>
              MakesBase(s, listed, 0, name) || exists i: nat :: MakesBase(u, listed[1..], i, name)
  {
    if i: nat :| MakesBase(s, listed, i, name) {
      assert i == 0 || MakesBase(u, listed[1..], i - 1, name);
    }
  }

  lemma LastShifts(s: State, u: State, listed: seq<Copy>, i: nat, name: string)
    requires listed != [] && u == s.(backup := u.backup) && 0 < i && LastToMake(s, listed, i, name)
    ensures LastToMake(u, listed[1..], i - 1, name)
  {
    forall j | i - 1 < j < |listed| - 1 ensures !MakesBase(u, listed[1..], j, name) {
      assert !MakesBase(s, listed, j + 1, name);
    }
  }

  /** Until the daemon starts its directory is empty. */
  lemma {:induction false} EmptyBeforeStart(s: State, es: seq<Event>)
    requires Init(s) && Exec(Step, s, es).Some? && !Exec(Step, s, es).value.started
    ensures var t := Exec(Step, s, es).value; t.backup == map[] && t.sample == 0 && t.dir == s.dir
  {
    var inv := (t: State) => t.dir == s.dir && (!t.started ==> t.backup == map[] && t.sample == 0);
    forall t, e | inv(t) && Step(t, e).Some? ensures inv(Step(t, e).value) {
      if e.Start? { CopyBasesAre(t, e.listed, ""); }
      if e.Sample? { BackUpFilesKeep(t.(sample := t.sample + 1), e.now, e.turns, "", 0); }
    }
    Invariance(Step, inv, s, es);
  }

  /**
   The first backup is complete: in every continuation of every run, each name has the base copy that the
   last of its files in the list had when the daemon started; and just after the start no other name has one.
   */
  lemma FirstBackupIsComplete(r: State, es: seq<Event>, listed: seq<Copy>, fs: seq<Event>, name: string)
    requires Init(r) && Exec(Step, r, es).Some? && !Exec(Step, r, es).value.started
    requires Exec(Step, Apply(Exec(Step, r, es).value, Start(listed)), fs).Some?
    ensures var s := Exec(Step, r, es).value;
            var t := Apply(s, Start(listed));
            var u := Exec(Step, t, fs).value;
            && (BasePath(name) in t.backup <==> exists i: nat :: MakesBase(s, listed, i, name))
            && (forall i: nat :: LastToMake(s, listed, i, name) ==>
                  BasePath(name) in u.backup && u.backup[BasePath(name)] == s.files[listed[i].path])
  {
    var s := Exec(Step, r, es).value;
    var t := Apply(s, Start(listed));
    EmptyBeforeStart(r, es);
    CopyBasesAre(s, listed, name);
    HistoryIsFixed(t, fs, name, 0);
  }

  // ---------- Files that come later ----------

  predicate TurnMakesBase(s: State, turns: seq<Turn>, i: nat, name: string) {
    i < |turns| && RelativeName(turns[i].path, s.dir) == name && Copies(s, turns[i].path, turns[i].baseOpens)
  }

  predicate FirstToMake(s: State, turns: seq<Turn>, i: nat, name: string) {
    TurnMakesBase(s, turns, i, name) && forall j :: 0 <= j < i ==> !TurnMakesBase(s, turns, j, name)
  }

  lemma BackUpFileBase(s: State, now: nat, turn: Turn, name: string)
    ensures var t, makes := BackUpFile(s, now, turn), RelativeName(turn.path, s.dir) == name
                                                      && Copies(s, turn.path, turn.baseOpens);
            && t == s.(backup := t.backup)
            && (BasePath(name) in t.backup <==> BasePath(name) in s.backup || makes)
            && (BasePath(name) in s.backup ==> Same(s, t, BasePath(name)))
            && (BasePath(name) !in s.backup && makes ==> t.backup[BasePath(name)] == s.files[turn.path])
  {
    if !Skipped(turn.path, s.dir) {
      var own := RelativeName(turn.path, s.dir);
      var base := BasePath(own);
      if BasePath(name) == base { BasePathsDiffer(name, own); }
      CopyBaseIs(s, turn.path, turn.baseOpens, name);
      var t := if base in s.backup then s else CopyBase(s, turn.path, turn.baseOpens);
      StoreDiffKeeps(t, own, s.sample, DiffFile(t, base, now, turn), name, 0);
    }
  }

  /** A name without a base copy gets one from the first turn of a sample that can make it. */
  lemma {:induction false} SampleMakesBase(s: State, now: nat, turns: seq<Turn>, name: string)
    ensures var t := BackUpFiles(s, now, turns);
            && (BasePath(name) in t.backup <==>
                  BasePath(name) in s.backup || exists i: nat :: TurnMakesBase(s, turns, i, name))
            && (BasePath(name) in s.backup ==> Same(s, t, BasePath(name)))
            && (BasePath(name) !in s.backup ==> forall i: nat :: FirstToMake(s, turns, i, name) ==>
                  BasePath(name) in t.backup && t.backup[BasePath(name)] == s.files[turns[i].path])
    decreases |turns|
  {
    if turns != [] {
      var u, rest := BackUpFile(s, now, turns[0]), turns[1..];
      BackUpFileBase(s, now, turns[0], name);
      SampleMakesBase(u, now, rest, name);
      TurnsShift(s, u, turns, name);
      var t := BackUpFiles(s, now, turns);
      if BasePath(name) !in s.backup {
        forall i: nat | FirstToMake(s, turns, i, name)
          ensures BasePath(name) in t.backup && t.backup[BasePath(name)] == s.files[turns[i].path]
        {
          if 0 < i {
            assert !TurnMakesBase(s, turns, 0, name);
            FirstShifts(s, u, turns, i, name);
          }
        }
      }
    }
  }

  lemma TurnsShift(s: State, u: State, turns: seq<Turn>, name: string)
    requires turns != [] && u == s.(backup := u.backup)
    ensures forall i: nat :: TurnMakesBase(u, turns[1..], i, name) <==> TurnMakesBase(s, turns, i + 1, name)
    ensures (exists i: nat :: TurnMakesBase(s, turns, i, name)) <==>
              TurnMakesBase(s, turns, 0, name) || exists i: nat :: TurnMakesBase(u, turns[1..], i, name)
  {
    if i: nat :| TurnMakesBase(s, turns, i, name) {
      assert i == 0 || TurnMakesBase(u, turns[1..], i - 1, name);
    }
  }

  lemma FirstShifts(s: State, u: State, turns: seq<Turn>, i: nat, name: string)
    requires turns != [] && u == s.(backup := u.backup) && 0 < i && FirstToMake(s, turns, i, name)
    ensures FirstToMake(u, turns[1..], i - 1, name)
  {
    forall j | 0 <= j < i - 1 ensures !TurnMakesBase(u, turns[1..], j, name) {
      assert !TurnMakesBase(s, turns, j + 1, name);
    }
  }

  /**
   A file that comes later is copied whole in its first sample, and that copy is its base in every
   continuation.
   */
  lemma LaterFilesGetBases(s: State, now: nat, turns: seq<Turn>, i: nat, name: string, fs: seq<Event>)
    requires s.started && BasePath(name) !in s.backup && FirstToMake(s, turns, i, name)
    requires Exec(Step, Apply(s, Sample(now, turns)), fs).Some?
    ensures var u := Exec(Step, Apply(s, Sample(now, turns)), fs).value;
            BasePath(name) in u.backup && u.backup[BasePath(name)] == s.files[turns[i].path]
  {
    var t := Apply(s, Sample(now, turns));
    BaseAfterSample(s, now, turns, i, name, t);
    StepKeeps(s, Sample(now, turns), name, 0);
    HistoryIsFixed(t, fs, name, 0);
  }

  lemma BaseOfFirst(v: State, now: nat, turns: seq<Turn>, i: nat, name: string)
    requires BasePath(name) !in v.backup && FirstToMake(v, turns, i, name)
    ensures var t := BackUpFiles(v, now, turns);
            BasePath(name) in t.backup && t.backup[BasePath(name)] == v.files[turns[i].path]
  {
    SampleMakesBase(v, now, turns, name);
  }

  lemma BaseAfterSample(s: State, now: nat, turns: seq<Turn>, i: nat, name: string, t: State)
    requires s.started && BasePath(name) !in s.backup && FirstToMake(s, turns, i, name)
    requires t == Apply(s, Sample(now, turns))
    ensures BasePath(name) in t.backup && t.backup[BasePath(name)] == s.files[turns[i].path]
  {
    var v := s.(sample := s.sample + 1);
    FirstInSample(s, v, turns, i, name);
    BaseOfFirst(v, now, turns, i, name);
  }

  lemma FirstInSample(s: State, v: State, turns: seq<Turn>, i: nat, name: string)
    requires v == s.(sample := v.sample) && FirstToMake(s, turns, i, name)
    ensures FirstToMake(v, turns, i, name)
  {
    forall j | 0 <= j < i ensures !TurnMakesBase(v, turns, j, name) {
      assert !TurnMakesBase(s, turns, j, name);
    }
  }

  // ---------- What is never copied ----------

  /** Every file of this name that a run lists or finds changed is a log of the daemon. */
  predicate OnlyLogs(dir: string, e: Event, name: string) {
    match e
    case Start(listed) =>
      forall i :: 0 <= i < |listed| && RelativeName(listed[i].path, dir) == name ==>
        Basename(listed[i].path) == "debug.log"
    case Sample(_, turns) =>
      forall i :: 0 <= i < |turns| && RelativeName(turns[i].path, dir) == name ==>
        Basename(turns[i].path) == "debug.log"
    case _ => true
  }

  predicate NoTrace(s: State, name: string, k: nat) {
    BasePath(name) !in s.backup && DiffPath(name, k) !in s.backup
  }

  lemma {:induction false} LogsLeaveNoTrace(s: State, now: nat, turns: seq<Turn>, name: string, k: nat)
    requires NoTrace(s, name, k)
    requires forall i :: 0 <= i < |turns| && RelativeName(turns[i].path, s.dir) == name ==>
               Basename(turns[i].path) == "debug.log"
    ensures NoTrace(BackUpFiles(s, now, turns), name, k)
    decreases |turns|
  {
    if turns != [] {
      var u := BackUpFile(s, now, turns[0]);
      BackUpFileKeeps(s, now, turns[0], name, k);
      assert NoTrace(u, name, k);
      forall i | 0 <= i < |turns[1..]| && RelativeName(turns[1..][i].path, u.dir) == name
        ensures Basename(turns[1..][i].path) == "debug.log"
      {
        assert turns[1..][i] == turns[i + 1];
      }
      LogsLeaveNoTrace(u, now, turns[1..], name, k);
    }
  }

  lemma {:induction false} CopyBasesKeepDiffs(s: State, listed: seq<Copy>, name: string, k: nat)
    ensures DiffPath(name, k) in CopyBases(s, listed).backup <==> DiffPath(name, k) in s.backup
    decreases |listed|
  {
    if listed != [] {
      BaseIsNoDiff(RelativeName(listed[0].path, s.dir), name, k);
      CopyBasesKeepDiffs(CopyBase(s, listed[0].path, listed[0].opens), listed[1..], name, k);
    }
  }

  /** A log of the daemon leaves neither a base copy nor a diff in any run. */
  lemma {:induction false} LogsAreNeverBackedUp(s: State, es: seq<Event>, name: string, k: nat)
    requires Init(s) && Exec(Step, s, es).Some? && forall i :: 0 <= i < |es| ==> OnlyLogs(s.dir, es[i], name)
    ensures NoTrace(Exec(Step, s, es).value, name, k) && Exec(Step, s, es).value.dir == s.dir
    decreases |es|
  {
    if es != [] {
      var fs, e := es[..|es| - 1], es[|es| - 1];
      LogsAreNeverBackedUp(s, fs, name, k);
      LogStep(Exec(Step, s, fs).value, e, name, k);
    }
  }

  lemma LogStep(t: State, e: Event, name: string, k: nat)
    requires NoTrace(t, name, k) && Enabled(t, e) && OnlyLogs(t.dir, e, name)
    ensures NoTrace(Apply(t, e), name, k) && Apply(t, e).dir == t.dir
  {
    match e
    case Start(listed) =>
      CopyBasesAre(t, listed, name);
      CopyBasesKeepDiffs(t, listed, name, k);
    case Sample(now, turns) =>
      var u := t.(sample := t.sample + 1);
      BackUpFilesKeep(u, now, turns, name, k);
      LogsLeaveNoTrace(u, now, turns, name, k);
    case _ =>
  }
}
