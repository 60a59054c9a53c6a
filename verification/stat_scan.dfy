/** The fallback of find_changed_files: comparing the files of the tree with what is known of them. */
module StatScan {
  import opened Runs

  datatype FileInfo = FileInfo(path: string, mtime: int, size: int, present: bool)

  datatype Stat = Stat(mtime: int, size: int)

  /** stat at the time of the scan; None for a file that is gone. */
  type Tree = string -> Option<Stat>

  function IndexOf(files: seq<FileInfo>, path: string): (i: nat)
    ensures i <= |files| && (i < |files| ==> files[i].path == path)
    ensures forall j :: 0 <= j < i ==> files[j].path != path
  {
    if files == [] || files[0].path == path then 0 else 1 + IndexOf(files[1..], path)
  }

  /** What is known of a path agrees with its stat. */
  predicate UpToDate(files: seq<FileInfo>, path: string, st: Stat) {
    var i := IndexOf(files, path);
    i < |files| && files[i].mtime == st.mtime && files[i].size == st.size && files[i].present
  }

  function Recorded(files: seq<FileInfo>, path: string, st: Stat): seq<FileInfo> {
    var i := IndexOf(files, path);
    var info := FileInfo(path, st.mtime, st.size, true);
    if i < |files| then files[i := info] else files + [info]
  }

  datatype Result = Result(files: seq<FileInfo>, changed: seq<string>)

  function Scan(files: seq<FileInfo>, current: seq<string>, tree: Tree): Result {
    if current == [] then Result(files, [])
    else
      var k := |current| - 1;
      var r, path := Scan(files, current[..k], tree), current[k];
      match tree(path)
      case None => r
      case Some(st) =>
        Result(Recorded(r.files, path, st), if UpToDate(r.files, path, st) then r.changed else r.changed + [path])
  }

  lemma RecordedIsUpToDate(files: seq<FileInfo>, path: string, st: Stat)
    ensures UpToDate(Recorded(files, path, st), path, st)
  {
    var i := IndexOf(files, path);
    var r := Recorded(files, path, st);
    assert forall j :: 0 <= j < i ==> r[j] == files[j];
    assert r[i].path == path;
  }

  lemma OthersStay(files: seq<FileInfo>, path: string, st: Stat, other: string, os: Stat)
    requires other != path
    ensures UpToDate(Recorded(files, path, st), other, os) == UpToDate(files, other, os)
  {
    var i, j := IndexOf(files, path), IndexOf(files, other);
    var r := Recorded(files, path, st);
    assert forall k :: 0 <= k < |files| && k != i ==> r[k] == files[k];
    assert forall k :: 0 <= k < |r| ==> (r[k].path == other <==> k < |files| && files[k].path == other);
    if j < |files| {
      assert r[j] == files[j];
    }
  }

  lemma RecordedAgain(files: seq<FileInfo>, path: string, st: Stat)
    requires UpToDate(files, path, st)
    ensures Recorded(files, path, st) == files
  {}

  /** After a scan everything that could be seen is up to date, and nothing else has changed. */
  lemma {:induction false} ScanUpdates(files: seq<FileInfo>, current: seq<string>, tree: Tree, path: string, st: Stat)
    ensures var r := Scan(files, current, tree).files;
            UpToDate(r, path, st) ==
            if path in current && tree(path).Some? then tree(path) == Some(st) else UpToDate(files, path, st)
    decreases |current|
  {
    if current != [] {
      var k := |current| - 1;
      var last, r := current[k], Scan(files, current[..k], tree).files;
      ScanUpdates(files, current[..k], tree, path, st);
      if tree(last).Some? {
        if last == path {
          RecordedIsUpToDate(r, path, tree(last).value);
          SameStat(Recorded(r, path, tree(last).value), path, tree(last).value, st);
        } else {
          OthersStay(r, last, tree(last).value, path, st);
        }
      }
    }
  }

  lemma SameStat(files: seq<FileInfo>, path: string, a: Stat, b: Stat)
    requires UpToDate(files, path, a)
    ensures UpToDate(files, path, b) <==> a == b
  {}

  /** A file is reported if and only if it is there and new, or differs from what was known of it. */
  lemma {:induction false} ScanReports(files: seq<FileInfo>, current: seq<string>, tree: Tree, path: string)
    ensures path in Scan(files, current, tree).changed <==>
              path in current && tree(path).Some? && !UpToDate(files, path, tree(path).value)
    decreases |current|
  {
    if current != [] {
      var k := |current| - 1;
      var last := current[k];
      ScanReports(files, current[..k], tree, path);
      if last == path && tree(path).Some? {
        ScanUpdates(files, current[..k], tree, path, tree(path).value);
      }
    }
  }

  /** Each file is reported once. */
  lemma {:induction false} ScanReportsOnce(files: seq<FileInfo>, current: seq<string>, tree: Tree)
    ensures var c := Scan(files, current, tree).changed; forall i, j :: 0 <= i < j < |c| ==> c[i] != c[j]
    decreases |current|
  {
    if current != [] {
      var k := |current| - 1;
      var last := current[k];
      ScanReportsOnce(files, current[..k], tree);
      ScanReports(files, current[..k], tree, last);
      if tree(last).Some? {
        ScanUpdates(files, current[..k], tree, last, tree(last).value);
      }
    }
  }

  /** Scanning an unchanged tree again reports nothing and changes nothing. */
  lemma {:induction false} SecondScanFindsNothing(files: seq<FileInfo>, current: seq<string>, tree: Tree,
                                                  again: seq<string>)
    requires forall path :: path in again ==> path in current
    ensures var r := Scan(files, current, tree).files; Scan(r, again, tree) == Result(r, [])
    decreases |again|
  {
    if again != [] {
      var k := |again| - 1;
      var r, last := Scan(files, current, tree).files, again[k];
      assert forall path :: path in again[..k] ==> path in again;
      SecondScanFindsNothing(files, current, tree, again[..k]);
      if tree(last).Some? {
        ScanUpdates(files, current, tree, last, tree(last).value);
        RecordedAgain(r, last, tree(last).value);
      }
    }
  }

  class KnownFiles {
    var files: seq<FileInfo>

    constructor ()
      ensures files == []
    {
      files := [];
    }

    /** find_changed_files without the inotify queue. */
    method FindChangedFiles(current: seq<string>, tree: Tree) returns (changed: seq<string>)
      modifies this
      ensures Result(files, changed) == Scan(old(files), current, tree)
    {
      changed := [];
      for i := 0 to |current|
        invariant Result(files, changed) == Scan(old(files), current[..i], tree)
      {
        assert current[..i + 1][..i] == current[..i];
        var path := current[i];
        var st := tree(path);
        if st.None? {
          continue;
        }
        var found := false;
        for j := 0 to |files|
          invariant !found && IndexOf(files, path) == j + IndexOf(files[j..], path)
          invariant Result(files, changed) == Scan(old(files), current[..i], tree)
        {
          assert files[j..][1..] == files[j + 1..];
          if files[j].path == path {
            found := true;
            if files[j].mtime != st.value.mtime || files[j].size != st.value.size || !files[j].present {
              changed := changed + [path];
            }
            files := files[j := FileInfo(path, st.value.mtime, st.value.size, true)];
            break;
          }
        }
        if !found {
          changed := changed + [path];
          files := files + [FileInfo(path, st.value.mtime, st.value.size, true)];
        }
      }
      assert current[..|current|] == current;
    }
  }
}
