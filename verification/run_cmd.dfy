/** RunCmd as it is written, with every process's descriptor table updated in place. */
module RunCmdLoop {
  import opened Runs
  import opened Pipeline
  import opened PipelineTheorems

  class Process {
    var table: Table

    constructor (table: Table)
      ensures this.table == table
    {
      this.table := table;
    }

    method LowestFreeDescriptor() returns (fd: nat)
      ensures LowestFree(table, fd)
    {
      fd := 0;
      ghost var seen: set<nat> := {};
      while fd in table
        invariant forall k :: 0 <= k < fd ==> k in table
        invariant seen <= table.Keys && forall k :: k in seen ==> k < fd
        decreases |table.Keys - seen|
      {
        assert table.Keys - (seen + {fd}) == (table.Keys - seen) - {fd};
        seen := seen + {fd};
        fd := fd + 1;
      }
    }

    /** pipe(): the two lowest free descriptors. */
    method MakePipe(pipe: nat) returns (ends: Ends)
      modifies this
      ensures LowestFree(old(table), ends.read) && LowestFree(old(table)[ends.read := ReadEnd(pipe)], ends.write)
      ensures table == WithPipe(old(table), pipe, ends)
    {
      var read := LowestFreeDescriptor();
      table := table[read := ReadEnd(pipe)];
      var write := LowestFreeDescriptor();
      table := table[write := WriteEnd(pipe)];
      ends := Ends(read, write);
    }

    method Dup(from: nat, to: nat)
      modifies this
      ensures table == Dup2(old(table), from, to)
    {
      if from in table {
        table := table[to := table[from]];
      }
    }

    method CloseDescriptor(fd: nat)
      modifies this
      ensures table == Close(old(table), fd)
    {
      table := table - {fd};
    }
  }

  /** The run `trace` of the step machine leads from `first` to `s`. */
  ghost predicate Reaches(first: State, trace: seq<Event>, s: State) {
    Exec(Step, first, trace) == Some(s)
  }

  lemma Extend(first: State, trace: seq<Event>, s: State, e: Event) returns (longer: seq<Event>, t: State)
    requires Reaches(first, trace, s) && Enabled(s, e)
    ensures Reaches(first, longer, t) && t == Apply(s, e)
  {
    longer, t := trace + [e], Apply(s, e);
    ExecExtend(Step, first, trace, s, e, t);
  }

  /** prev_pipe_read, -1 standing for none. */
  function Previous(prev: int): Option<nat> { if prev < 0 then None else Some(prev) }

  /** The branch of the child, up to execvp. */
  method RunChild(child: Process, n: nat, i: nat, prev: int, ends: Ends, ghost first: State, ghost past: seq<Event>,
                  ghost s: State)
    returns (ghost trace: seq<Event>, ghost t: State)
    requires -1 <= prev && Reaches(first, past, s) && s.n == n && i == |s.children| - 1
    requires s.children[i] == Child(if prev != -1 then AtDupIn else OutPc(n, i), child.table, Previous(prev), ends)
    modifies child
    ensures Reaches(first, trace, t)
    ensures t == s.(children := s.children[..i] + [Child(Running, child.table, Previous(prev), ends)])
  {
    trace, t := past, s;
    if prev != -1 {
      child.Dup(prev, STDIN);
      trace, t := Extend(first, trace, t, ChildStep(i));
      child.CloseDescriptor(prev);
      trace, t := Extend(first, trace, t, ChildStep(i));
    }
    if i + 1 < n {
      child.Dup(ends.write, STDOUT);
      trace, t := Extend(first, trace, t, ChildStep(i));
      child.CloseDescriptor(ends.read);
      trace, t := Extend(first, trace, t, ChildStep(i));
      child.CloseDescriptor(ends.write);
      trace, t := Extend(first, trace, t, ChildStep(i));
    }
    trace, t := Extend(first, trace, t, ChildStep(i));
  }

  /** The branch of the parent after the fork of command i. */
  method RunParent(shell: Process, n: nat, i: nat, prev: int, ends: Ends, ghost first: State, ghost past: seq<Event>,
                   ghost s: State)
    returns (newPrev: int, ghost trace: seq<Event>, ghost t: State)
    requires -1 <= prev && i < n && Reaches(first, past, s) && s.n == n
    requires s.parent == ForkedParent(n, Parent(AtFork, i, shell.table, Previous(prev), ends))
    modifies shell
    ensures -1 <= newPrev && Reaches(first, trace, t)
    ensures t == s.(parent := Turn(n, i + 1, shell.table, Previous(newPrev), ends))
  {
    trace, t, newPrev := past, s, prev;
    if prev != -1 {
      shell.CloseDescriptor(prev);
      trace, t := Extend(first, trace, t, ParentClose);
    }
    if i + 1 < n {
      shell.CloseDescriptor(ends.write);
      trace, t := Extend(first, trace, t, ParentClose);
      newPrev := ends.read;
    }
  }

  /** From the fork of command i on. */
  method ForkCommand(shell: Process, n: nat, i: nat, prev: int, ends: Ends, ghost first: State,
                     ghost past: seq<Event>, ghost s: State)
    returns (child: Process, newPrev: int, ghost trace: seq<Event>, ghost t: State)
    requires -1 <= prev && i == |s.children| < n && Reaches(first, past, s) && s.n == n
    requires s.parent == Parent(AtFork, i, shell.table, Previous(prev), ends)
    modifies shell
    ensures fresh(child) && -1 <= newPrev && Reaches(first, trace, t)
    ensures t.n == n && t.base == s.base && t.parent == Turn(n, i + 1, shell.table, Previous(newPrev), ends)
    ensures t.children == s.children + [Child(Running, child.table, Previous(prev), ends)]
  {
    child := new Process(shell.table);
    trace, t := Extend(first, past, s, Fork);
    trace, t := RunChild(child, n, i, prev, ends, first, trace, t);
    newPrev, trace, t := RunParent(shell, n, i, prev, ends, first, trace, t);
  }

  /** The commands run, with the tables of `children`. */
  ghost predicate RunningAs(s: State, children: seq<Process>)
    reads children
  {
    |s.children| == |children|
    && forall j :: 0 <= j < |children| ==> s.children[j].pc == Running && s.children[j].table == children[j].table
  }

  /** The events `trace` lead to s: the shell is at `parent` with its table, and `children` run. */
  ghost predicate At(shell: Process, parent: Parent, children: seq<Process>, n: nat, first: State, trace: seq<Event>,
                     s: State)
    reads shell, children
  {
    && Reaches(first, trace, s) && s.n == n && s.parent == parent && parent.table == shell.table
    && RunningAs(s, children) && shell !in children
  }

  /** pipe, when it succeeds. */
  method OpenPipe(shell: Process, n: nat, i: nat, prev: int, ends: Ends, ghost children: seq<Process>,
                  ghost first: State, ghost past: seq<Event>, ghost s: State)
    returns (pipeFd: Ends, ghost trace: seq<Event>, ghost t: State)
    requires -1 <= prev && i < n
             && At(shell, Turn(n, i, shell.table, Previous(prev), ends), children, n, first, past, s)
    modifies shell
    ensures At(shell, Parent(AtFork, i, shell.table, Previous(prev), pipeFd), children, n, first, trace, t)
  {
    pipeFd := shell.MakePipe(i);
    trace, t := Extend(first, past, s, Pipe(pipeFd));
  }

  /** pipe fails: the shell exits. */
  method FailPipe(shell: Process, n: nat, i: nat, prev: int, ends: Ends, children: seq<Process>,
                  ghost first: State, ghost past: seq<Event>, ghost s: State)
    returns (ghost trace: seq<Event>, ghost t: State)
    requires -1 <= prev && i < n
             && At(shell, Turn(n, i, shell.table, Previous(prev), ends), children, n, first, past, s)
    modifies shell
    ensures At(shell, t.parent, children, n, first, trace, t) && t.parent.pc == GaveUp
  {
    trace, t := Extend(first, past, s, PipeFails);
    shell.table := map[];
  }

  /** fork fails: the shell leaves its loop. */
  method FailFork(shell: Process, n: nat, i: nat, prev: int, ends: Ends, children: seq<Process>,
                  ghost first: State, ghost past: seq<Event>, ghost s: State)
    returns (ghost trace: seq<Event>, ghost t: State)
    requires -1 <= prev && i < n
    requires At(shell, Parent(AtFork, i, shell.table, Previous(prev), ends), children, n, first, past, s)
    ensures At(shell, t.parent, children, n, first, trace, t) && t.parent.pc == GaveUp
  {
    trace, t := Extend(first, past, s, ForkFails);
  }

  /** fork, when it succeeds, and both of its branches. */
  method StartCommand(shell: Process, n: nat, i: nat, prev: int, ends: Ends, children: seq<Process>,
                      ghost first: State, ghost past: seq<Event>, ghost s: State)
    returns (started: seq<Process>, newPrev: int, ghost trace: seq<Event>, ghost t: State)
    requires -1 <= prev && i == |children| < n
    requires At(shell, Parent(AtFork, i, shell.table, Previous(prev), ends), children, n, first, past, s)
    modifies shell
    ensures -1 <= newPrev && |started| == i + 1 && started[..i] == children && fresh(started[i])
    ensures At(shell, Turn(n, i + 1, shell.table, Previous(newPrev), ends), started, n, first, trace, t)
  {
    var child;
    child, newPrev, trace, t := ForkCommand(shell, n, i, prev, ends, first, past, s);
    started := children + [child];
  }

  /**
   The loop of the shell, each child running up to execvp as soon as it is forked; pipeOk and forkOk say
   which calls succeed.  The tables it leaves are those of a run of the step machine, which ends with all
   commands running unless a call failed.
   */
  method RunCmd(shell: Process, n: nat, pipeOk: seq<bool>, forkOk: seq<bool>)
    returns (children: seq<Process>, ghost trace: seq<Event>, ghost s: State)
    requires |pipeOk| == |forkOk| == n
    requires forall fd :: fd in shell.table ==> shell.table[fd].Other?
    modifies shell
    ensures var first := State(n, old(shell.table), Turn(n, 0, old(shell.table), None, Ends(0, 0)), []);
            Init(first) && Reaches(first, trace, s)
    ensures s.n == n && s.parent.table == shell.table && RunningAs(s, children)
    ensures (forall i :: 0 <= i < n ==> pipeOk[i] && forkOk[i]) ==> AllRunning(s)
    ensures !(forall i :: 0 <= i < n ==> pipeOk[i] && forkOk[i]) ==> s.parent.pc == GaveUp
  {
    ghost var first := State(n, shell.table, Turn(n, 0, shell.table, None, Ends(0, 0)), []);
    s, trace, children := first, [], [];
    var pipeFd := Ends(0, 0);
    var prev: int := -1;
    for i := 0 to n
      invariant -1 <= prev && |children| == i
      invariant At(shell, Turn(n, i, shell.table, Previous(prev), pipeFd), children, n, first, trace, s)
      invariant forall k :: 0 <= k < i ==> pipeOk[k] && forkOk[k]
    {
      if !pipeOk[i] {
        trace, s := FailPipe(shell, n, i, prev, pipeFd, children, first, trace, s);
        return;
      }
      pipeFd, trace, s := OpenPipe(shell, n, i, prev, pipeFd, children, first, trace, s);
      if !forkOk[i] {
        trace, s := FailFork(shell, n, i, prev, pipeFd, children, first, trace, s);
        return;
      }
      children, prev, trace, s := StartCommand(shell, n, i, prev, pipeFd, children, first, trace, s);
    }
  }
}
