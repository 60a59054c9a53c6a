/** The change queue of the daemon: which file events enter it, and in which order. */
module ChangeQueue {
  import opened CText
  import opened Runs
  import opened Sequences
  import BackupHistory

  const IN_MODIFY := 0x2
  const IN_CLOSE_WRITE := 0x8
  const IN_MOVED_FROM := 0x40
  const IN_MOVED_TO := 0x80
  const IN_CREATE := 0x100
  const IN_DELETE := 0x200
  const IN_ISDIR := 0x4000_0000
  const WORD := 0x1_0000_0000

  /** The name is padded with NUL bytes; empty for events of the watched directory itself. */
  datatype FileEvent = FileEvent(wd: nat, mask: nat, cookie: nat, name: string)

  datatype Watch = Watch(wd: nat, path: string)

  datatype Monitor = Monitor(watches: seq<Watch>, queue: seq<string>)

  /** What a batch of events meets: which paths hold text, and what a new directory adds to the watches. */
  datatype World = World(isText: string -> bool, newWatches: string -> seq<Watch>)

  predicate Has(mask: nat, bit: nat)
    requires 0 < bit
  {
    mask / bit % 2 == 1
  }

  /** get_watch_path: the first entry of a descriptor counts. */
  function WatchPath(watches: seq<Watch>, wd: nat): Option<string> {
    if watches == [] then None else if watches[0].wd == wd then Some(watches[0].path) else WatchPath(watches[1..], wd)
  }

  function EventPath(dir: string, e: FileEvent): string {
    BackupHistory.Cut(dir + "/" + CString(e.name))
  }

  predicate Contains(s: string, part: string)
    decreases |s|
  {
    part <= s || (s != "" && Contains(s[1..], part))
  }

  /** A file event that the daemon follows. */
  predicate Follows(mask: nat, path: string, w: World) {
    var name := BackupHistory.Basename(path);
    && !Has(mask, IN_ISDIR) && name != "debug.log" && !Contains(name, "_restored_")
    && if Has(mask, IN_CREATE) || Has(mask, IN_MODIFY) || Has(mask, IN_CLOSE_WRITE) || Has(mask, IN_MOVED_TO)
       then w.isText(path)
       else Has(mask, IN_DELETE) || Has(mask, IN_MOVED_FROM)
  }

  function Enqueue(queue: seq<string>, path: string): seq<string> {
    if path in queue then queue else queue + [path]
  }

  function AfterEvent(m: Monitor, e: FileEvent, w: World): Monitor {
    var dir := WatchPath(m.watches, e.wd);
    if e.name == "" || dir.None? then m
    else
      var path := EventPath(dir.value, e);
      if Has(e.mask, IN_ISDIR) && Has(e.mask, IN_CREATE) then m.(watches := m.watches + w.newWatches(path))
      else if Follows(e.mask, path, w) then m.(queue := Enqueue(m.queue, path))
      else m
  }

  function AfterEvents(m: Monitor, es: seq<FileEvent>, w: World): Monitor {
    if es == [] then m else AfterEvent(AfterEvents(m, es[..|es| - 1], w), es[|es| - 1], w)
  }

  // ---------- Which events count ----------

  /** The name is not one of the daemon's own files. */
  predicate IsForeign(path: string) {
    BackupHistory.Basename(path) != "debug.log" && !Contains(BackupHistory.Basename(path), "_restored_")
  }

  /** The twelve kinds of events of inotify(7), by their bit. */
  predicate IsKind(mask: nat) {
    mask in {0x1, 0x2, 0x4, 0x8, 0x10, 0x20, 0x40, 0x80, 0x100, 0x200, 0x400, 0x800}
  }

  /** The kinds behind which the file is there with other contents, and those behind which it is gone. */
  predicate Appears(mask: nat) { mask in {0x2, 0x8, 0x80, 0x100} }

  predicate Disappears(mask: nat) { mask in {0x40, 0x200} }

  /** Of the twelve kinds six are followed, text or not when the file is gone; of a directory none is. */
  lemma KindsFollowed(kind: nat, path: string, w: World)
    requires IsKind(kind)
    ensures Follows(kind, path, w) <==>
              IsForeign(path) && ((Appears(kind) && w.isText(path)) || Disappears(kind))
    ensures !Follows(kind + 0x4000_0000, path, w)
  {
    BitsOf(kind);
    BitsOf(kind + 0x4000_0000);
  }

  lemma BitsOf(mask: nat)
    requires IsKind(mask) || (mask >= 0x4000_0000 && IsKind(mask - 0x4000_0000))
    ensures Has(mask, IN_ISDIR) <==> mask >= 0x4000_0000
    ensures mask < 0x4000_0000 ==>
              && (Has(mask, IN_MODIFY) || Has(mask, IN_CLOSE_WRITE) || Has(mask, IN_MOVED_TO) || Has(mask, IN_CREATE)
                  <==> Appears(mask))
              && (Has(mask, IN_DELETE) || Has(mask, IN_MOVED_FROM) <==> Disappears(mask))
  {}

  lemma {:induction false} PaddingIsDropped(name: string, padding: string)
    requires NUL !in name && (padding == "" || padding[0] == NUL)
    ensures CString(name + padding) == name
  {
    if name == "" {
      assert name + padding == padding;
    } else {
      assert (name + padding)[1..] == name[1..] + padding;
      PaddingIsDropped(name[1..], padding);
    }
  }

  /**
   A change of one file of a watched directory: its path, whatever the padding of the name, is in the queue
   afterwards if it was there or its kind is followed, and nothing else is new.
   */
  lemma ChangeIsQueuedIff(m: Monitor, wd: nat, kind: nat, name: string, padding: string, w: World)
    requires IsKind(kind) && NUL !in name && name != "" && (padding == "" || padding[0] == NUL)
    requires WatchPath(m.watches, wd).Some? && |WatchPath(m.watches, wd).value| + 1 + |name| < 4096
    ensures var path := WatchPath(m.watches, wd).value + "/" + name;
            var t := AfterEvent(m, FileEvent(wd, kind, 0, name + padding), w);
            && t.watches == m.watches
            && (path in t.queue <==> path in m.queue
                                     || (IsForeign(path) && ((Appears(kind) && w.isText(path)) || Disappears(kind))))
            && (t.queue == m.queue || t.queue == m.queue + [path])
  {
    PaddingIsDropped(name, padding);
    KindsFollowed(kind, WatchPath(m.watches, wd).value + "/" + name, w);
    BitsOf(kind);
  }

  lemma {:induction false} WatchAppended(watches: seq<Watch>, more: seq<Watch>, wd: nat)
    ensures WatchPath(watches + more, wd) ==
            if WatchPath(watches, wd).Some? then WatchPath(watches, wd) else WatchPath(more, wd)
  {
    if watches == [] {
      assert watches + more == more;
    } else {
      assert (watches + more)[1..] == watches[1..] + more;
      WatchAppended(watches[1..], more, wd);
    }
  }

  /** A directory made in a watched one is watched from its event on, under every descriptor it was given. */
  lemma NewDirectoryIsWatched(m: Monitor, e: FileEvent, w: World, wd: nat)
    requires e.name != "" && WatchPath(m.watches, e.wd).Some? && Has(e.mask, IN_ISDIR) && Has(e.mask, IN_CREATE)
    requires WatchPath(m.watches, wd) == None
    ensures var t := AfterEvent(m, e, w);
            && WatchPath(t.watches, wd) == WatchPath(w.newWatches(EventPath(WatchPath(m.watches, e.wd).value, e)), wd)
            && (forall d :: WatchPath(m.watches, d).Some? ==> WatchPath(t.watches, d) == WatchPath(m.watches, d))
            && t.queue == m.queue
  {
    var more := w.newWatches(EventPath(WatchPath(m.watches, e.wd).value, e));
    WatchAppended(m.watches, more, wd);
    forall d | WatchPath(m.watches, d).Some? ensures WatchPath(m.watches + more, d) == WatchPath(m.watches, d) {
      WatchAppended(m.watches, more, d);
    }
  }

  // ---------- The queue is the accepted paths in first-occurrence order ----------

  /** The paths of the followed events of a batch, repetitions included. */
  function Followed(m: Monitor, es: seq<FileEvent>, w: World): seq<string> {
    if es == [] then []
    else
      var k := |es| - 1;
      var dir := WatchPath(AfterEvents(m, es[..k], w).watches, es[k].wd);
      Followed(m, es[..k], w) +
      if es[k].name == "" || dir.None? then []
      else
        var path := EventPath(dir.value, es[k]);
        if Follows(es[k].mask, path, w) then [path] else []
  }

  /** The first occurrences of the elements of s, in order. */
  function FirstOccurrences(s: seq<string>): seq<string> {
    if s == [] then [] else Enqueue(FirstOccurrences(s[..|s| - 1]), s[|s| - 1])
  }

  function FirstIndex(s: seq<string>, x: string): (i: nat)
    ensures i <= |s| && (i < |s| ==> s[i] == x) && (forall j :: 0 <= j < i ==> s[j] != x)
    ensures i < |s| <==> x in s
  {
    if s == [] || s[0] == x then 0 else 1 + FirstIndex(s[1..], x)
  }

  /** No repetition, the same elements, each pair in the order in which they first appeared. */
  lemma {:induction false} FirstOccurrencesMeaning(s: seq<string>)
    ensures var r := FirstOccurrences(s);
            && (forall x :: x in r <==> x in s)
            && (forall i, j :: 0 <= i < j < |r| ==> FirstIndex(s, r[i]) < FirstIndex(s, r[j]))
    decreases |s|
  {
    if s != [] {
      var k := |s| - 1;
      var front, x := s[..k], s[k];
      var q, r := FirstOccurrences(front), FirstOccurrences(s);
      FirstOccurrencesMeaning(front);
      assert s == front + [x];
      forall y ensures y in r <==> y in s {}
      forall i, j | 0 <= i < j < |r| ensures FirstIndex(s, r[i]) < FirstIndex(s, r[j]) {
        if j < |q| {
          SameFirstIndex(front, x, r[i]);
          SameFirstIndex(front, x, r[j]);
        } else {
          SameFirstIndex(front, x, r[i]);
        }
      }
    }
  }

  lemma SameFirstIndex(front: seq<string>, x: string, y: string)
    ensures y in front ==> FirstIndex(front + [x], y) == FirstIndex(front, y) < |front|
    ensures y !in front && y == x ==> FirstIndex(front + [x], y) == |front|
  {
    var s := front + [x];
    var i, j := FirstIndex(s, y), FirstIndex(front, y);
    assert forall k :: 0 <= k < |front| ==> s[k] == front[k];
    assert s[|front|] == x;
  }

  lemma {:induction false} QueueGrows(s: seq<string>, t: seq<string>)
    ensures FirstOccurrences(s + t) == if t == [] then FirstOccurrences(s)
            else Enqueue(FirstOccurrences(s + t[..|t| - 1]), t[|t| - 1])
  {
    if t == [] {
      assert s + t == s;
    } else {
      assert (s + t)[..|s + t| - 1] == s + t[..|t| - 1];
    }
  }

  /**
   Whatever was in the queue since it was last emptied, a batch of events leaves in it the first
   occurrences of everything followed since then.
   */
  lemma {:induction false} QueueIsFirstOccurrences(m: Monitor, seen: seq<string>, es: seq<FileEvent>, w: World)
    requires m.queue == FirstOccurrences(seen)
    ensures AfterEvents(m, es, w).queue == FirstOccurrences(seen + Followed(m, es, w))
    decreases |es|
  {
    if es == [] {
      assert seen + [] == seen;
    } else {
      var k := |es| - 1;
      QueueIsFirstOccurrences(m, seen, es[..k], w);
      QueueGrows(seen, Followed(m, es, w));
      var before := AfterEvents(m, es[..k], w);
      assert Followed(m, es[..k], w) + [] == Followed(m, es[..k], w);
      var dir := WatchPath(before.watches, es[k].wd);
      if es[k].name != "" && dir.Some? {
        var path := EventPath(dir.value, es[k]);
        if Follows(es[k].mask, path, w) {
          assert (Followed(m, es[..k], w) + [path])[..|Followed(m, es, w)| - 1] == Followed(m, es[..k], w);
        }
      }
    }
  }

  // ---------- The records of a read buffer ----------

  function Word(n: nat): (s: string)
    requires n < WORD
    ensures |s| == 4
  {
    [(n % 256) as char, (n / 256 % 256) as char, (n / 65536 % 256) as char, (n / 16777216) as char]
  }

  function FromWord(s: string): nat
    requires |s| == 4
  {
    s[0] as nat + 256 * (s[1] as nat) + 65536 * (s[2] as nat) + 16777216 * (s[3] as nat)
  }

  lemma WordBack(n: nat)
    requires n < WORD
    ensures FromWord(Word(n)) == n
  {
    assert n / 65536 == n / 256 / 256 && n / 16777216 == n / 256 / 256 / 256;
  }

  const EVENT_SIZE := 16   // sizeof(struct inotify_event)

  predicate Representable(e: FileEvent) {
    e.wd < WORD && e.mask < WORD && e.cookie < WORD && |e.name| < WORD
  }

  function Record(e: FileEvent): (s: string)
    requires Representable(e)
    ensures |s| == EVENT_SIZE + |e.name|
  {
    Word(e.wd) + (Word(e.mask) + (Word(e.cookie) + (Word(|e.name|) + e.name)))
  }

  function Records(es: seq<FileEvent>): (s: string)
    requires forall i :: 0 <= i < |es| ==> Representable(es[i])
    ensures s == "" <==> es == []
  {
    if es == [] then "" else Record(es[0]) + Records(es[1..])
  }

  /** The event at the front of a buffer. */
  function FirstRecord(s: string): Option<FileEvent> {
    if |s| < EVENT_SIZE || |s| < EVENT_SIZE + FromWord(s[12..16]) then None
    else Some(FileEvent(FromWord(s[..4]), FromWord(s[4..8]), FromWord(s[8..12]), s[16..16 + FromWord(s[12..16])]))
  }

  /** A record is read back, whatever follows it. */
  lemma RecordBack(e: FileEvent, rest: string)
    requires Representable(e)
    ensures FirstRecord(Record(e) + rest) == Some(e)
  {
    var s := Record(e) + rest;
    assert s[..4] == Word(e.wd) && s[4..8] == Word(e.mask) && s[8..12] == Word(e.cookie) && s[12..16] == Word(|e.name|);
    WordBack(e.wd);
    WordBack(e.mask);
    WordBack(e.cookie);
    WordBack(|e.name|);
    assert s[16..] == e.name + rest;
    assert s[16..16 + |e.name|] == s[16..][..|e.name|] == e.name;
  }

  /** A record as the kernel writes it on a little-endian machine: watch 1, mask 0x100, cookie 2, a padded name. */
  lemma RecordLayout()
    ensures Record(FileEvent(1, 0x100, 2, "ab\0\0")) ==
            [1 as char, NUL, NUL, NUL, NUL, 1 as char, NUL, NUL, 2 as char, NUL, NUL, NUL, 4 as char, NUL, NUL, NUL,
             'a', 'b', NUL, NUL]
  {}

  lemma NextRecord(s: string, es: seq<FileEvent>, k: nat)
    requires k <= |es| && (forall i :: 0 <= i < |es| ==> Representable(es[i])) && s == Records(es[k..]) && s != ""
    ensures k < |es| && FirstRecord(s) == Some(es[k])
    ensures EVENT_SIZE + |es[k].name| <= |s| && s[EVENT_SIZE + |es[k].name|..] == Records(es[k + 1..])
  {
    var e, rest := es[k], Records(es[k + 1..]);
    assert es[k..][1..] == es[k + 1..];
    RecordBack(e, rest);
    DropConcat(Record(e), rest, |Record(e)|);
    assert s[|Record(e)|..] == rest;
  }

  /** The walk stands in front of record k. */
  ghost predicate AtRecord(buffer: string, i: nat, es: seq<FileEvent>, k: nat) {
    && (forall j :: 0 <= j < |es| ==> Representable(es[j]))
    && i <= |buffer| && k <= |es| && buffer[i..] == Records(es[k..])
  }

  lemma Advance(buffer: string, i: nat, es: seq<FileEvent>, k: nat)
    requires AtRecord(buffer, i, es, k) && i < |buffer|
    ensures k < |es| && FirstRecord(buffer[i..]) == Some(es[k])
    ensures AtRecord(buffer, i + EVENT_SIZE + |es[k].name|, es, k + 1)
  {
    NextRecord(buffer[i..], es, k);
    DropDrop(buffer, i, EVENT_SIZE + |es[k].name|);
  }

  lemma FirstOfRecords(buffer: string, es: seq<FileEvent>, m: Monitor, w: World)
    requires (forall i :: 0 <= i < |es| ==> Representable(es[i])) && buffer == Records(es)
    ensures AtRecord(buffer, 0, es, 0) && AfterEvents(m, es[..0], w) == m
  {
    assert buffer[0..] == buffer && es[0..] == es;
  }

  lemma AllRecords(buffer: string, i: nat, es: seq<FileEvent>, k: nat)
    requires AtRecord(buffer, i, es, k) && i == |buffer|
    ensures es[..k] == es
  {
    assert buffer[i..] == "";
  }

  lemma OneMoreEvent(m: Monitor, es: seq<FileEvent>, k: nat, w: World)
    requires k < |es|
    ensures AfterEvents(m, es[..k + 1], w) == AfterEvent(AfterEvents(m, es[..k], w), es[k], w)
  {
    TakeOne(es, k);
  }

  // ---------- The loops ----------

  class MonitorState {
    var watches: seq<Watch>
    var queue: seq<string>

    constructor (watches: seq<Watch>)
      ensures Value() == Monitor(watches, [])
    {
      this.watches, queue := watches, [];
    }

    ghost function Value(): Monitor
      reads this
    {
      Monitor(watches, queue)
    }

    method GetWatchPath(wd: nat) returns (path: Option<string>)
      ensures path == WatchPath(watches, wd)
    {
      for i := 0 to |watches|
        invariant WatchPath(watches[i..], wd) == WatchPath(watches, wd)
      {
        assert watches[i..][1..] == watches[i + 1..];
        if watches[i].wd == wd {
          return Some(watches[i].path);
        }
      }
      path := None;
    }

    /** The search of the queue and the append. */
    method AddToQueue(path: string)
      modifies this`queue
      ensures queue == Enqueue(old(queue), path)
    {
      var found := false;
      for j := 0 to |queue|
        invariant found <==> path in queue[..j]
      {
        if queue[j] == path {
          found := true;
          break;
        }
      }
      if !found {
        queue := queue + [path];
      }
    }

    /** The body of the loop for one event. */
    method ProcessEvent(e: FileEvent, w: World)
      modifies this
      ensures Value() == AfterEvent(old(Value()), e, w)
    {
      if |e.name| > 0 {
        var dir := GetWatchPath(e.wd);
        if dir.None? {
          return;
        }
        var path := EventPath(dir.value, e);
        var isDir := Has(e.mask, IN_ISDIR);
        if isDir && Has(e.mask, IN_CREATE) {
          watches := watches + w.newWatches(path);
          return;
        }
        if !isDir {
          var basename := BackupHistory.Basename(path);
          if basename == "debug.log" || Contains(basename, "_restored_") {
            return;
          }
          var shouldAdd, isText := false, false;
          if Has(e.mask, IN_CREATE) || Has(e.mask, IN_MODIFY) || Has(e.mask, IN_CLOSE_WRITE)
             || Has(e.mask, IN_MOVED_TO)
          {
            isText := w.isText(path);
          } else if Has(e.mask, IN_DELETE) || Has(e.mask, IN_MOVED_FROM) {
            isText := true;
          }
          if isText {
            if Has(e.mask, IN_MODIFY) || Has(e.mask, IN_CLOSE_WRITE) {
              shouldAdd := true;
            } else if Has(e.mask, IN_CREATE) {
              shouldAdd := true;
            } else if Has(e.mask, IN_DELETE) {
              shouldAdd := true;
            } else if Has(e.mask, IN_MOVED_FROM) || Has(e.mask, IN_MOVED_TO) {
              shouldAdd := true;
            }
            if shouldAdd {
              AddToQueue(path);
            }
          }
        }
      }
    }

    /** The walk over the records of a buffer visits every event once, in order. */
    method ProcessInotifyEvents(buffer: string, ghost es: seq<FileEvent>, w: World)
      requires (forall i :: 0 <= i < |es| ==> Representable(es[i])) && buffer == Records(es)
      modifies this
      ensures Value() == AfterEvents(old(Value()), es, w)
    {
      var i := 0;
      ghost var k, before := 0, Value();
      FirstOfRecords(buffer, es, before, w);
      while i < |buffer|
        invariant AtRecord(buffer, i, es, k)
        invariant Value() == AfterEvents(before, es[..k], w)
        decreases |buffer| - i
      {
        Advance(buffer, i, es, k);
        var event := FirstRecord(buffer[i..]).value;
        ProcessEvent(event, w);
        OneMoreEvent(before, es, k, w);
        i := i + EVENT_SIZE + |event.name|;
        k := k + 1;
      }
      AllRecords(buffer, i, es, k);
    }

    /** get_changed_files_from_queue */
    method Drain() returns (changed: seq<string>)
      modifies this`queue
      ensures changed == old(queue) && queue == []
    {
      changed := [];
      for i := 0 to |queue|
        invariant changed == queue[..i]
      {
        changed := changed + [queue[i]];
      }
      queue := [];
    }
  }
}
