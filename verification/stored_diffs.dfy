/** What a stored diff says about itself, and which samples can be restored at all. */
module StoredDiffs {
  import opened CText
  import opened Runs
  import opened MetadataFilter
  import opened LineDiff
  import opened LineDiffProofs
  import opened BackupHistory
  import opened BackupTheorems

  // ---------- The metadata read back ----------

  /** The rest of the first line that begins with this title. */
  function Field(text: string, title: string): Option<string>
    decreases |text|
  {
    if text == "" then None
    else
      var n := FirstLine(text);
      if title <= text[..n] && text[n - 1] == '\n' && |title| < n then Some(text[|title|..n - 1])
      else Field(text[n..], title)
  }

  predicate OneLine(title: string, value: string) { title != "" && '\n' !in title && '\n' !in value }

  lemma FieldHere(title: string, value: string, rest: string)
    requires OneLine(title, value)
    ensures Field(title + value + "\n" + rest, title) == Some(value)
  {
    var line := title + value + "\n";
    FirstLineOf(line, rest);
    assert (line + rest)[..|line|] == line && line[..|title|] == title;
    assert (line + rest)[|title|..|line| - 1] == value;
  }

  /** The four values of the metadata stand under their titles, whatever the diff contains. */
  lemma MetadataBack(m: Metadata, body: string)
    requires '\n' !in m.oldFile && '\n' !in m.newFile
    ensures var text := WithMetadata(m, body);
            && Field(text, "# Timestamp: ") == Some(Decimal(m.timestamp))
            && Field(text, "# Sample: ") == Some(Decimal(m.sample))
            && Field(text, "# Old file: ") == Some(m.oldFile)
            && Field(text, "# New file: ") == Some(m.newFile)
  {
    NoNewline(m.timestamp);
    NoNewline(m.sample);
    var d := "---\n" + body;
    var c := NewFileLine(m) + d;
    var b := OldFileLine(m) + c;
    var a := SampleLine(m) + b;
    FieldHere("# Timestamp: ", Decimal(m.timestamp), a);
    FieldPast("# Timestamp: ", Decimal(m.timestamp), a, "# Sample: ");
    FieldPast("# Timestamp: ", Decimal(m.timestamp), a, "# Old file: ");
    FieldPast("# Timestamp: ", Decimal(m.timestamp), a, "# New file: ");
    FieldHere("# Sample: ", Decimal(m.sample), b);
    FilesBack(m, b, c, d);
  }

  lemma FilesBack(m: Metadata, b: string, c: string, d: string)
    requires '\n' !in m.oldFile && '\n' !in m.newFile && b == OldFileLine(m) + c && c == NewFileLine(m) + d
    ensures Field(SampleLine(m) + b, "# Old file: ") == Some(m.oldFile)
    ensures Field(SampleLine(m) + b, "# New file: ") == Some(m.newFile)
  {
    NoNewline(m.sample);
    FieldPast("# Sample: ", Decimal(m.sample), b, "# Old file: ");
    FieldPast("# Sample: ", Decimal(m.sample), b, "# New file: ");
    FieldHere("# Old file: ", m.oldFile, c);
    FieldPast("# Old file: ", m.oldFile, c, "# New file: ");
    FieldHere("# New file: ", m.newFile, d);
  }

  /** A line whose title differs early from the one looked for. */
  lemma FieldPast(other: string, value: string, rest: string, title: string)
    requires OneLine(other, value) && 2 < |title| && 2 < |other| && other[2] != title[2]
    ensures Field(other + value + "\n" + rest, title) == Field(rest, title)
  {
    var line := other + value + "\n";
    FirstLineOf(line, rest);
    assert (line + rest)[..|line|] == line && (line + rest)[|line|..] == rest;
    assert line[2] == other[2];
  }

  // ---------- Samples ----------

  function Samples(es: seq<Event>): nat {
    if es == [] then 0 else Samples(es[..|es| - 1]) + if es[|es| - 1].Sample? then 1 else 0
  }

  /** Samples are numbered from 1 in the order they are taken. */
  lemma {:induction false} SamplesAreCounted(s: State, es: seq<Event>)
    requires Init(s) && Exec(Step, s, es).Some?
    ensures Exec(Step, s, es).value.sample == Samples(es)
    decreases |es|
  {
    if es != [] {
      SamplesAreCounted(s, es[..|es| - 1]);
      SampleStep(Exec(Step, s, es[..|es| - 1]).value, es[|es| - 1]);
    }
  }

  lemma {:induction false} BasesKeepNumber(s: State, listed: seq<Copy>)
    ensures CopyBases(s, listed).sample == s.sample
    decreases |listed|
  {
    if listed != [] { BasesKeepNumber(CopyBase(s, listed[0].path, listed[0].opens), listed[1..]); }
  }

  lemma SampleStep(s: State, e: Event)
    requires Enabled(s, e)
    ensures Apply(s, e).sample == s.sample + if e.Sample? then 1 else 0
  {
    match e
    case Start(listed) => BasesKeepNumber(s, listed);
    case Sample(now, turns) => BackUpFilesKeep(s.(sample := s.sample + 1), now, turns, "", 0);
    case _ =>
  }

  /** Only a sample that was taken can be restored. */
  lemma RestoreNeedsTheSample(s: State, es: seq<Event>, filename: string, k: int, w: World)
    requires Init(s) && Exec(Step, s, es).Some? && !(1 <= k <= Samples(es))
    ensures Restore(Exec(Step, s, es).value, filename, k, w) == None
  {
    SamplesAreCounted(s, es);
  }

  /**
   What the k-th sample of a run has stored for the last file of a name says, in every continuation, which
   sample it is of, when it was taken, and which two files it compares.
   */
  lemma StoredDiffNamesItsFiles(r: State, es: seq<Event>, now: nat, turns: seq<Turn>, i: nat, fs: seq<Event>)
    requires Init(r) && Exec(Step, r, es).Some? && Exec(Step, r, es).value.started && i < |turns|
    requires Basename(turns[i].path) != "debug.log" && '\n' !in turns[i].path
    requires var s := Exec(Step, r, es).value;
             var name := RelativeName(turns[i].path, s.dir);
             && Stores(turns[i], DiffPath(name, s.sample + 1)) && NameAbsent(turns[i + 1..], s.dir, name)
             && Exec(Step, Apply(s, Sample(now, turns)), fs).Some? && '\n' !in name
    ensures var s := Exec(Step, r, es).value;
            var name, k := RelativeName(turns[i].path, s.dir), Samples(es) + 1;
            var backup := Exec(Step, Apply(s, Sample(now, turns)), fs).value.backup;
            && DiffPath(name, k) in backup
            && Field(backup[DiffPath(name, k)], "# Timestamp: ") == Some(Decimal(now))
            && Field(backup[DiffPath(name, k)], "# Sample: ") == Some(Decimal(k))
            && Field(backup[DiffPath(name, k)], "# Old file: ") == Some(BasePath(name))
            && Field(backup[DiffPath(name, k)], "# New file: ") == Some(turns[i].path)
  {
    var s := Exec(Step, r, es).value;
    var t, name, k := Apply(s, Sample(now, turns)), RelativeName(turns[i].path, s.dir), s.sample + 1;
    SamplesAreCounted(r, es);
    SampleStores(s, now, turns, i);
    HistoryIsFixed(t, fs, name, k);
    DiffFileBack(t, name, now, turns[i]);
  }

  lemma DiffFileBack(t: State, name: string, now: nat, turn: Turn)
    requires '\n' !in name && '\n' !in turn.path
    ensures var text := DiffFile(t, BasePath(name), now, turn);
            && Field(text, "# Timestamp: ") == Some(Decimal(now))
            && Field(text, "# Sample: ") == Some(Decimal(t.sample))
            && Field(text, "# Old file: ") == Some(BasePath(name)) && Field(text, "# New file: ") == Some(turn.path)
  {
    NoNewlineIn(name);
    MetadataBack(Metadata(now, t.sample, BasePath(name), turn.path), Printed(t, BasePath(name), turn));
  }

  lemma NoNewlineIn(name: string)
    requires '\n' !in name
    ensures '\n' !in BasePath(name)
  {}
}
