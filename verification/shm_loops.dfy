/** The loop bodies of the two-semaphore copy as they are written, on the shared segment in place. */
module ShmLoops {
  import opened Runs
  import opened CopyLoops
  import opened ShmTransfer

  lemma Extend(s: State, es: seq<Event>, t: State, e: Event, u: State)
    requires Exec(Step, s, es) == Some(t) && Enabled(t, e) && u == Apply(t, e)
    ensures Exec(Step, s, es + [e]) == Some(u)
  {
    ExecExtend(Step, s, es, t, e, u);
  }

  class Segment {
    const input: seq<byte>
    var pos: nat
    var output: seq<byte>
    const buffer: array<byte>
    var bufSize: nat
    var eof: bool
    var sem0: nat
    var sem1: nat
    var removed: bool
    ghost var parent: Parent
    ghost var child: Child
    ghost var sawEof: bool

    /** The semaphores set to 1 and 0. */
    constructor (input: seq<byte>)
      ensures fresh(buffer) && Valid() && Init(Snapshot()) && this.input == input
    {
      this.input, pos, output := input, 0, [];
      buffer := new byte[SHM_SIZE](i => 0);
      bufSize, eof, sem0, sem1, removed := 0, false, 1, 0, false;
      parent, child, sawEof := PWait, CWait, false;
    }

    ghost predicate Valid()
      reads this
    {
      buffer.Length == SHM_SIZE && pos <= |input|
    }

    ghost function Snapshot(): State
      reads this, buffer
    {
      State(input, pos, output, buffer[..], bufSize, eof, sem0, sem1, removed, parent, child, sawEof)
    }

    /** read into the shared buffer. */
    method ReadBlock(offered: int) returns (n: int)
      requires Valid() && parent == PRead
      modifies this`pos, this`parent, this`sawEof, buffer
      ensures Valid() && Enabled(old(Snapshot()), Read(n)) && Snapshot() == AfterRead(old(Snapshot()), n)
    {
      n := ReadOnce(input, pos, buffer, offered);
      if n > 0 {
        pos, parent := pos + n, PHave(n);
      } else if n == 0 {
        parent, sawEof := PEof, true;
      } else {
        parent := PError;
      }
    }

    /** The two fields that tell the child what is in the buffer. */
    method StoreSizeAndFlag(size: nat, flag: bool)
      requires Valid() && Enabled(Snapshot(), StoreFields)
      requires if parent == PEof then size == 0 && flag else size == parent.n && !flag
      modifies this`bufSize, this`eof, this`parent
      ensures Valid() && Snapshot() == Apply(old(Snapshot()), StoreFields)
    {
      bufSize, eof := size, flag;
      parent := if parent == PEof then PSendEof else PSend;
    }

    /** sem_signal by the parent: on semaphore 0 after a failed read, otherwise on semaphore 1. */
    method SignalFromParent(id: nat, ok: bool)
      requires Valid() && Enabled(Snapshot(), ParentSignal(ok)) && id == (if parent == PError then 0 else 1)
      modifies this`sem0, this`sem1, this`parent
      ensures Valid() && Snapshot() == AfterParentSignal(old(Snapshot()), ok)
    {
      if ok {
        if id == 0 { sem0 := sem0 + 1; } else { sem1 := sem1 + 1; }
      }
      parent := if ok && parent == PSend then PWait else PClose;
    }

    /** What follows a read that did not fail. */
    method Announce(size: nat, flag: bool, signalled: bool, ghost s: State, ghost past: seq<Event>)
      returns (ghost es: seq<Event>)
      requires Valid() && Enabled(Snapshot(), StoreFields) && !removed && Exec(Step, s, past) == Some(Snapshot())
      requires if parent == PEof then size == 0 && flag else size == parent.n && !flag
      modifies this`bufSize, this`eof, this`sem1, this`sem0, this`parent
      ensures Valid() && Exec(Step, s, es) == Some(Snapshot())
      ensures parent == if !flag && signalled then PWait else PClose
    {
      ghost var t := Snapshot();
      StoreSizeAndFlag(size, flag);
      Extend(s, past, t, StoreFields, Snapshot());
      t := Snapshot();
      SignalFromParent(1, signalled);
      Extend(s, past + [StoreFields], t, ParentSignal(signalled), Snapshot());
      es := past + [StoreFields] + [ParentSignal(signalled)];
    }

    /** The rest of a turn, from the read on. */
    method ReadAndSignal(offered: int, signalled: bool, ghost s: State, ghost past: seq<Event>)
      returns (goOn: bool, ghost es: seq<Event>)
      requires Valid() && parent == PRead && !removed && Exec(Step, s, past) == Some(Snapshot())
      modifies this`pos, this`bufSize, this`eof, this`sem0, this`sem1, this`parent, this`sawEof, buffer
      ensures Valid() && Exec(Step, s, es) == Some(Snapshot())
      ensures parent == if goOn then PWait else PClose
    {
      ghost var t := Snapshot();
      var n := ReadBlock(offered);
      es := past + [Read(n)];
      Extend(s, past, t, Read(n), Snapshot());
      if n > 0 {
        es := Announce(n, false, signalled, s, es);
        goOn := signalled;
      } else if n == 0 {
        es := Announce(0, true, signalled, s, es);
        goOn := false;
      } else {
        t := Snapshot();
        SignalFromParent(0, signalled);
        Extend(s, es, t, ParentSignal(signalled), Snapshot());
        es := es + [ParentSignal(signalled)];
        goOn := false;
      }
    }

    /** One turn of the parent's loop, whether or not its wait succeeds; the result says if it goes on. */
    method ParentTurn(waited: bool, offered: int, signalled: bool) returns (goOn: bool, ghost es: seq<Event>)
      requires Valid() && parent == PWait && !removed && (waited ==> 0 < sem0)
      modifies this`pos, this`bufSize, this`eof, this`sem0, this`sem1, this`parent, this`sawEof, buffer
      ensures Valid() && Exec(Step, old(Snapshot()), es) == Some(Snapshot())
      ensures parent == if goOn then PWait else PClose
      ensures !waited ==> es == [ParentWait(false)]
    {
      ghost var s := Snapshot();
      es := [ParentWait(waited)];
      if waited {
        sem0 := sem0 - 1;
        parent := PRead;
        goOn, es := ReadAndSignal(offered, signalled, s, es);
      } else {
        parent := PClose;
        goOn := false;
      }
    }

    /** write from the shared buffer. */
    method WriteSome(written: nat, taken: int) returns (n: int)
      requires Valid() && child == CWrite(bufSize, written) && written < bufSize <= SHM_SIZE
      modifies this`output, this`child
      ensures Valid() && Enabled(old(Snapshot()), Write(n)) && Snapshot() == AfterWrite(old(Snapshot()), n)
    {
      n := Clip(taken, bufSize - written);
      if n > 0 {
        output := output + buffer[written..written + n];
        child := CWrite(bufSize, written + n);
      } else {
        child := CExit(1);
      }
    }

    /** sem_signal of semaphore 0 by the child. */
    method SignalFromChild(ok: bool)
      requires Valid() && Enabled(Snapshot(), ChildSignal(ok))
      modifies this`sem0, this`child
      ensures Valid() && Snapshot() == AfterChildSignal(old(Snapshot()), ok)
    {
      if ok { sem0 := sem0 + 1; }
      child := if child == CEof then CExit(0) else if ok then CWait else CExit(1);
    }

    /** The write loop over the block. */
    method WriteOut(taken: nat -> int, ghost s: State, ghost past: seq<Event>) returns (ok: bool, ghost es: seq<Event>)
      requires Valid() && child == CWrite(bufSize, 0) && bufSize <= SHM_SIZE && Exec(Step, s, past) == Some(Snapshot())
      modifies this`output, this`child
      ensures Valid() && Exec(Step, s, es) == Some(Snapshot())
      ensures child == if ok then CWrite(bufSize, bufSize) else CExit(1)
    {
      es := past;
      var written := 0;
      while written < bufSize
        invariant Valid() && written <= bufSize && child == CWrite(bufSize, written)
        invariant Exec(Step, s, es) == Some(Snapshot())
      {
        ghost var t := Snapshot();
        var n := WriteSome(written, taken(written));
        Extend(s, es, t, Write(n), Snapshot());
        es := es + [Write(n)];
        if n <= 0 {
          return false, es;
        }
        written := written + n;
      }
      ok := true;
    }

    /** The test of the flag and, if it is not set, the block. */
    method TestAndWrite(taken: nat -> int, ghost s: State, ghost past: seq<Event>)
      returns (ok: bool, ghost es: seq<Event>)
      requires Valid() && child == CTest && bufSize <= SHM_SIZE && Exec(Step, s, past) == Some(Snapshot())
      modifies this`output, this`child
      ensures Valid() && Exec(Step, s, es) == Some(Snapshot())
      ensures child == if eof then CEof else if ok then CWrite(bufSize, bufSize) else CExit(1)
      ensures eof ==> ok
    {
      ghost var t := Snapshot();
      child := if eof then CEof else CWrite(bufSize, 0);
      Extend(s, past, t, ChildTest, Snapshot());
      ok, es := true, past + [ChildTest];
      if !eof {
        ok, es := WriteOut(taken, s, es);
      }
    }

    /** One turn of the child's loop, whether or not its wait succeeds; code is set when the child exits. */
    method ChildTurn(waited: bool, taken: nat -> int, signalled: bool) returns (code: Option<int>, ghost es: seq<Event>)
      requires Valid() && child == CWait && bufSize <= SHM_SIZE && (waited ==> 0 < sem1 && !removed)
      modifies this`output, this`sem0, this`sem1, this`child
      ensures Valid() && Exec(Step, old(Snapshot()), es) == Some(Snapshot())
      ensures child == if code.None? then CWait else CExit(code.value)
      ensures !waited ==> es == [ChildWait(false)] && code == Some(1)
    {
      ghost var s := Snapshot();
      es := [ChildWait(waited)];
      if !waited {
        child := CExit(1);
        return Some(1), es;
      }
      sem1 := sem1 - 1;
      child := CTest;
      var ok;
      ok, es := TestAndWrite(taken, s, es);
      if !ok {
        return Some(1), es;
      }
      ghost var t := Snapshot();
      SignalFromChild(signalled);
      Extend(s, es, t, ChildSignal(signalled), Snapshot());
      es := es + [ChildSignal(signalled)];
      code := if eof then Some(0) else if signalled then None else Some(1);
    }
  }
}
