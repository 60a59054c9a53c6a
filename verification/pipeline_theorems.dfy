/** Who holds which end of a pipe: what the wiring guarantees in every reachable state. */
module PipelineTheorems {
  import opened Runs
  import opened Pipeline

  datatype Process = Shell | Command(j: nat)

  ghost predicate Holds(s: State, p: Process, fd: nat, file: File) {
    match p
    case Shell => fd in s.parent.table && s.parent.table[fd] == file
    case Command(j) => j < |s.children| && fd in s.children[j].table && s.children[j].table[fd] == file
  }

  predicate AllRunning(s: State) {
    s.parent.pc == Finished && |s.children| == s.n
    && forall j :: 0 <= j < s.n ==> s.children[j].pc == Running
  }

  /** Pipe i joins command i at descriptor 1 to command i + 1 at descriptor 0, and nobody else has an end of it. */
  ghost predicate Connected(s: State, i: nat) {
    forall p, fd ::
      && (Holds(s, p, fd, WriteEnd(i)) <==> p == Command(i) && fd == STDOUT)
      && (Holds(s, p, fd, ReadEnd(i)) <==> p == Command(i + 1) && fd == STDIN)
  }

  // ---------- Standard input and output open at the start ----------

  /** The files in a child's table, wherever it is on its way to execvp. */
  lemma ChildFiles(n: nat, base: Table, j: nat, c: Child, fd: nat)
    requires Standard(base) && ChildInv(n, base, j, c) && fd in c.table
    ensures c.table[fd].WriteEnd? ==> c.table[fd].pipe == j
    ensures c.table[fd].ReadEnd? ==> c.table[fd].pipe == j || (0 < j && c.table[fd].pipe == j - 1)
    ensures c.pc == Running && j + 1 < n && c.table[fd] == WriteEnd(j) ==> fd == STDOUT
    ensures c.pc == Running && 0 < j && c.table[fd] == ReadEnd(j - 1) ==> fd == STDIN
    ensures c.pc == Running && j + 1 < n ==> c.table[fd] != ReadEnd(j)
  {}

  lemma ChildHolds(n: nat, base: Table, j: nat, c: Child)
    requires Standard(base) && ChildInv(n, base, j, c) && c.pc == Running
    ensures j + 1 < n ==> STDOUT in c.table && c.table[STDOUT] == WriteEnd(j)
    ensures 0 < j ==> STDIN in c.table && c.table[STDIN] == ReadEnd(j - 1)
  {}

  lemma ParentFiles(n: nat, base: Table, p: Parent, fd: nat)
    requires Standard(base) && ParentInv(n, base, p) && fd in p.table
    ensures p.pc == Finished && p.table[fd].WriteEnd? ==> p.table[fd].pipe == n - 1
    ensures p.pc == Finished && p.table[fd].ReadEnd? ==> p.table[fd].pipe == n - 1
    ensures p.table[fd].WriteEnd? ==> p.table[fd].pipe == p.i || p.pc == Finished
  {}

  lemma StandardMeansConnected(s: State, i: nat)
    requires Inv(s) && AllRunning(s) && i + 1 < s.n
    ensures Connected(s, i)
  {
    forall p, fd
      ensures Holds(s, p, fd, WriteEnd(i)) <==> p == Command(i) && fd == STDOUT
      ensures Holds(s, p, fd, ReadEnd(i)) <==> p == Command(i + 1) && fd == STDIN
    {
      ChildHolds(s.n, s.base, i, s.children[i]);
      ChildHolds(s.n, s.base, i + 1, s.children[i + 1]);
      match p
      case Shell =>
        if fd in s.parent.table { ParentFiles(s.n, s.base, s.parent, fd); }
      case Command(j) =>
        if j < s.n && fd in s.children[j].table { ChildFiles(s.n, s.base, j, s.children[j], fd); }
    }
  }

  // ---------- Standard input or output closed at the start ----------

  /** Without descriptor 0 the first read end takes it, and command 1 closes it after a dup2 onto itself. */
  predicate InputLost(s: State) {
    var p := s.parent;
    && STDIN !in s.base && 1 < s.n && |s.children| == Forked(p)
    && (p.i == 0 ==>
        match p.pc
        case AtPipe => p.table == s.base && p.prev.None?
        case AtFork => p.prev.None? && p.ends.read == STDIN != p.ends.write && STDIN in p.table
        case AtCloseWrite => p.ends.read == STDIN != p.ends.write && STDIN in p.table
        case GaveUp => true
        case _ => false)
    && (p.i == 1 ==>
        && (p.pc == AtPipe ==> p.prev == Some(STDIN) && STDIN in p.table)
        && (p.pc == AtFork ==> p.prev == Some(STDIN)))
    && (1 < |s.children| ==>
        var c := s.children[1];
        c.prev == Some(STDIN) && (c.pc != AtDupIn && c.pc != AtCloseIn ==> STDIN !in c.table))
  }

  lemma InputLostStep(s: State, e: Event)
    requires InputLost(s) && Enabled(s, e)
    ensures InputLost(Apply(s, e)) && Apply(s, e).base == s.base
  {}

  /** Without descriptor 1 the first read end takes it, and command 0 closes its output with it. */
  predicate OutputLost(s: State) {
    var p := s.parent;
    && STDIN in s.base && STDOUT !in s.base && 1 < s.n && |s.children| == Forked(p)
    && (p.i == 0 ==>
        match p.pc
        case AtPipe => p.table == s.base && p.prev.None?
        case AtFork => p.prev.None? && p.ends.read == STDOUT != p.ends.write
        case AtClosePrev => false
        case Finished => false
        case _ => true)
    && (0 < |s.children| ==>
        var c := s.children[0];
        && c.ends.read == STDOUT != c.ends.write && c.pc != AtDupIn && c.pc != AtCloseIn
        && (c.pc != AtDupOut && c.pc != AtCloseRead ==> STDOUT !in c.table))
  }

  lemma OutputLostStep(s: State, e: Event)
    requires OutputLost(s) && Enabled(s, e)
    ensures OutputLost(Apply(s, e)) && Apply(s, e).base == s.base
  {}

  lemma LostRun(s: State, es: seq<Event>)
    requires Init(s) && 1 < s.n && !(STDIN in s.base && STDOUT in s.base) && Exec(Step, s, es).Some?
    ensures var t := Exec(Step, s, es).value; InputLost(t) || OutputLost(t)
  {
    var inv := (t: State) => InputLost(t) || OutputLost(t);
    forall t, e | inv(t) && Step(t, e).Some? ensures inv(Step(t, e).value) {
      if InputLost(t) { InputLostStep(t, e); } else { OutputLostStep(t, e); }
    }
    Invariance(Step, inv, s, es);
  }

  // ---------- Main results ----------

  /**
   When all commands of a pipeline of two or more are running, every pipe joins exactly its two
   neighbours if and only if descriptors 0 and 1 were open at the start.
   */
  lemma ConnectedIffStandard(s: State, es: seq<Event>)
    requires Init(s) && 1 < s.n && Exec(Step, s, es).Some? && AllRunning(Exec(Step, s, es).value)
    ensures var t := Exec(Step, s, es).value;
            (forall i :: 0 <= i < s.n - 1 ==> Connected(t, i)) <==> STDIN in s.base && STDOUT in s.base
  {
    var t := Exec(Step, s, es).value;
    if STDIN in s.base && STDOUT in s.base {
      InvRun(s, es);
      forall i | 0 <= i < s.n - 1 ensures Connected(t, i) {
        StandardMeansConnected(t, i);
      }
    } else {
      LostRun(s, es);
      SameSetup(s, es);
      assert !Holds(t, Command(0), STDOUT, WriteEnd(0)) || !Holds(t, Command(1), STDIN, ReadEnd(0));
      assert !Connected(t, 0);
    }
  }

  lemma SameSetup(s: State, es: seq<Event>)
    requires Exec(Step, s, es).Some?
    ensures Exec(Step, s, es).value.n == s.n && Exec(Step, s, es).value.base == s.base
  {
    var inv := (t: State) => t.n == s.n && t.base == s.base;
    Invariance(Step, inv, s, es);
  }

  /** Command i, until it exits, has the write end of pipe i somewhere. */
  lemma WriterHolds(n: nat, base: Table, i: nat, c: Child)
    requires Standard(base) && ChildInv(n, base, i, c) && c.pc != Exited && i + 1 < n
    ensures exists fd :: fd in c.table && c.table[fd] == WriteEnd(i)
  {
    if c.pc == AtDupIn || c.pc == AtCloseIn || c.pc == AtDupOut {
      assert c.ends.write in c.table && c.table[c.ends.write] == WriteEnd(i);
    } else {
      assert STDOUT in c.table && c.table[STDOUT] == WriteEnd(i);
    }
  }

  /**
   End of file travels down the chain: in any interleaving, once the parent is past command i, the reader
   of pipe i sees end of file exactly when command i has exited, not before.
   */
  lemma EndOfFileIffWriterExited(s: State, es: seq<Event>, i: nat)
    requires Init(s) && Standard(s.base) && Exec(Step, s, es).Some?
    requires var t := Exec(Step, s, es).value;
             i + 1 < s.n && i < |t.children| && (t.parent.i != i || t.parent.pc == Finished)
    ensures var t := Exec(Step, s, es).value;
            (forall p, fd :: !Holds(t, p, fd, WriteEnd(i))) <==> t.children[i].pc == Exited
  {
    InvRun(s, es);
    var t := Exec(Step, s, es).value;
    if t.children[i].pc == Exited {
      forall p, fd ensures !Holds(t, p, fd, WriteEnd(i)) {
        match p
        case Shell =>
          if fd in t.parent.table { ParentFiles(t.n, t.base, t.parent, fd); }
        case Command(j) =>
          if j < |t.children| && fd in t.children[j].table { ChildFiles(t.n, t.base, j, t.children[j], fd); }
      }
    } else {
      WriterHolds(t.n, t.base, i, t.children[i]);
      var fd :| fd in t.children[i].table && t.children[i].table[fd] == WriteEnd(i);
      assert Holds(t, Command(i), fd, WriteEnd(i));
    }
  }

  /** Command j > 0, until it exits, has the read end of pipe j - 1 somewhere. */
  lemma ReaderHolds(n: nat, base: Table, j: nat, c: Child)
    requires Standard(base) && ChildInv(n, base, j, c) && c.pc != Exited && 0 < j
    ensures exists fd :: fd in c.table && c.table[fd] == ReadEnd(j - 1)
  {
    if c.pc == AtDupIn {
      assert c.prev.value in c.table && c.table[c.prev.value] == ReadEnd(j - 1);
    } else {
      assert STDIN in c.table && c.table[STDIN] == ReadEnd(j - 1);
    }
  }

  /** The shell has the read end of the last pipe until it has started its reader. */
  lemma ShellHoldsReader(t: State, i: nat)
    requires Inv(t) && Standard(t.base) && i + 1 == |t.children| && i + 1 < t.n && t.parent.pc != GaveUp
    ensures exists fd :: Holds(t, Shell, fd, ReadEnd(i))
  {
    var p := t.parent;
    var fd := if p.pc == AtPipe || p.pc == AtFork then p.prev.value else p.ends.read;
    assert Holds(t, Shell, fd, ReadEnd(i));
  }

  /** A command never writes into a pipe without reader, unless the next one has exited or the shell gave up. */
  lemma ReaderIsThere(s: State, es: seq<Event>, i: nat)
    requires Init(s) && Standard(s.base) && Exec(Step, s, es).Some?
    requires var t := Exec(Step, s, es).value;
             && i + 1 < s.n && i < |t.children| && t.parent.pc != GaveUp
             && (i + 1 < |t.children| ==> t.children[i + 1].pc != Exited)
    ensures var t := Exec(Step, s, es).value; exists p, fd :: Holds(t, p, fd, ReadEnd(i))
  {
    InvRun(s, es);
    var t := Exec(Step, s, es).value;
    if i + 1 < |t.children| {
      ReaderHolds(t.n, t.base, i + 1, t.children[i + 1]);
      var fd :| fd in t.children[i + 1].table && t.children[i + 1].table[fd] == ReadEnd(i);
      assert Holds(t, Command(i + 1), fd, ReadEnd(i));
    } else {
      ShellHoldsReader(t, i);
    }
  }

  lemma Grows(t: Table, fd: nat, file: File)
    ensures |t[fd := file]| <= |t| + 1 && (fd !in t ==> |t[fd := file]| == |t| + 1)
  {
    if fd in t {
      assert t[fd := file].Keys == t.Keys;
    } else {
      assert t[fd := file].Keys == t.Keys + {fd};
    }
  }

  lemma PipeGrows(t: Table, i: nat, ends: Ends)
    ensures |WithPipe(t, i, ends)| <= |t| + 2
    ensures ends.read !in t && ends.write !in t && ends.read != ends.write ==> |WithPipe(t, i, ends)| == |t| + 2
  {
    Grows(t, ends.read, ReadEnd(i));
    Grows(t[ends.read := ReadEnd(i)], ends.write, WriteEnd(i));
  }

  /**
   However many commands there are, the shell never has more than three descriptors above those it began
   with; at the end of the loop it has exactly two more, the ends of the last pipe.
   */
  lemma ShellDescriptors(s: State, es: seq<Event>)
    requires Init(s) && Standard(s.base) && Exec(Step, s, es).Some?
    ensures var p := Exec(Step, s, es).value.parent;
            && |p.table| <= |s.base| + 3
            && (p.pc == Finished && 0 < s.n ==>
                |p.table| == |s.base| + 2 && p.table == WithPipe(s.base, s.n - 1, p.ends))
  {
    InvRun(s, es);
    var p := Exec(Step, s, es).value.parent;
    PipeGrows(s.base, if 0 < s.n then s.n - 1 else 0, p.ends);
    if PrevIs(s.base, p.i, p.prev) {
      var t := WithPrev(s.base, p.i, p.prev);
      if p.prev.Some? { Grows(s.base, p.prev.value, ReadEnd(p.i - 1)); }
      PipeGrows(t, p.i, p.ends);
    }
    PipeGrows(s.base, p.i, p.ends);
  }

  /** What dup2 copies is always open. */
  lemma DupNeverFails(s: State, es: seq<Event>, j: nat)
    requires Init(s) && Standard(s.base) && Exec(Step, s, es).Some? && j < |Exec(Step, s, es).value.children|
    ensures var c := Exec(Step, s, es).value.children[j];
            && (c.pc == AtDupIn ==> c.prev.Some? && c.prev.value in c.table)
            && (c.pc == AtDupOut ==> c.ends.write in c.table)
  {
    InvRun(s, es);
  }

  predicate SomeCallFailed(es: seq<Event>) { exists i :: 0 <= i < |es| && (es[i] == PipeFails || es[i] == ForkFails) }

  lemma GiveUpStep(s: State, e: Event)
    requires Enabled(s, e)
    ensures Apply(s, e).parent.pc == GaveUp <==> s.parent.pc == GaveUp || e == PipeFails || e == ForkFails
  {}

  /** The shell gives up exactly when pipe or fork has failed. */
  lemma {:induction false} GivesUpIff(s: State, es: seq<Event>)
    requires Init(s) && Exec(Step, s, es).Some?
    ensures Exec(Step, s, es).value.parent.pc == GaveUp <==> SomeCallFailed(es)
    decreases |es|
  {
    if es != [] {
      var fs, e := es[..|es| - 1], es[|es| - 1];
      GivesUpIff(s, fs);
      GiveUpStep(Exec(Step, s, fs).value, e);
      assert es[|fs|] == e && forall i :: 0 <= i < |fs| ==> es[i] == fs[i];
    }
  }

  /**
   After a failed pipe the shell is gone with all its descriptors; after a failed fork it goes on with the ends
   of the pipe it has just made, and of the one before.  Commands already started are left alone.
   */
  lemma FailedForkLeaks(s: State, es: seq<Event>, e: Event)
    requires Init(s) && Standard(s.base) && Exec(Step, s, es + [e]).Some? && (e == PipeFails || e == ForkFails)
    ensures Exec(Step, s, es).Some?
    ensures var t, u := Exec(Step, s, es).value, Exec(Step, s, es + [e]).value;
            && u.parent.pc == GaveUp && u.children == t.children && u.parent.i == |t.children|
            && |u.parent.table| == if e == PipeFails then 0 else |s.base| + if |t.children| == 0 then 2 else 3
  {
    ExecAppend(Step, s, es, e);
    InvRun(s, es);
    if e == ForkFails {
      var p := Exec(Step, s, es).value.parent;
      if p.prev.Some? { Grows(s.base, p.prev.value, ReadEnd(p.i - 1)); }
      PipeGrows(WithPrev(s.base, p.i, p.prev), p.i, p.ends);
    }
  }

  /** Only the last command starts with descriptors of its own pipe beside 0 and 1: both ends of it. */
  lemma CommandDescriptors(s: State, es: seq<Event>, j: nat)
    requires Init(s) && Standard(s.base) && Exec(Step, s, es).Some?
    requires var t := Exec(Step, s, es).value; j < |t.children| && t.children[j].pc == Running
    ensures var c := Exec(Step, s, es).value.children[j];
            && (j + 1 < s.n ==> c.table.Keys == s.base.Keys)
            && (j + 1 == s.n ==> c.table.Keys == s.base.Keys + {c.ends.read, c.ends.write} && |c.table| == |s.base| + 2)
  {
    InvRun(s, es);
    var c := Exec(Step, s, es).value.children[j];
    assert InPlace(s.base, j).Keys == s.base.Keys;
    if j + 1 == s.n {
      PipeGrows(InPlace(s.base, j), j, c.ends);
      assert |InPlace(s.base, j)| == |s.base|;
    }
  }
}
