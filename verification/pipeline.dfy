/**
 The descriptors of a shell pipeline: the parent makes one pipe a command and forks, every child moves
 its two pipe ends to descriptors 0 and 1 and calls execvp.  Parent and children run in any order.
 */
module Pipeline {
  import opened Runs

  /** What a descriptor refers to.  Pipes are numbered in the order they are made. */
  datatype File = ReadEnd(pipe: nat) | WriteEnd(pipe: nat) | Other(id: nat)

  type Table = map<nat, File>

  const STDIN := 0
  const STDOUT := 1

  predicate LowestFree(t: Table, fd: nat) {
    fd !in t && forall k :: 0 <= k < fd ==> k in t
  }

  function Dup2(t: Table, from: nat, to: nat): Table {
    if from in t then t[to := t[from]] else t
  }

  function Close(t: Table, fd: nat): Table { t - {fd} }

  /** pipeFd */
  datatype Ends = Ends(read: nat, write: nat)

  datatype ParentPc =
    | AtPipe | AtFork
    | AtClosePrev | AtCloseWrite   // after the fork of command i
    | Finished                     // out of the loop
    | GaveUp                       // pipe or fork failed

  datatype ChildPc =
    | AtDupIn | AtCloseIn | AtDupOut | AtCloseRead | AtCloseWrite
    | AtExec | Running | Exited

  datatype Parent = Parent(pc: ParentPc, i: nat, table: Table, prev: Option<nat>, ends: Ends)

  datatype Child = Child(pc: ChildPc, table: Table, prev: Option<nat>, ends: Ends)

  datatype State = State(n: nat, base: Table, parent: Parent, children: seq<Child>)

  datatype Event =
    | Pipe(ends: Ends) | PipeFails | Fork | ForkFails | ParentClose
    | ChildStep(j: nat) | ChildExits(j: nat)

  predicate IsLive(s: State, j: nat) { j < |s.children| && s.children[j].pc != Exited }

  predicate Enabled(s: State, e: Event) {
    match e
    case Pipe(ends) =>
      s.parent.pc == AtPipe && LowestFree(s.parent.table, ends.read)
      && LowestFree(s.parent.table[ends.read := ReadEnd(s.parent.i)], ends.write)
    case PipeFails => s.parent.pc == AtPipe
    case Fork => s.parent.pc == AtFork
    case ForkFails => s.parent.pc == AtFork
    case ParentClose =>
      (s.parent.pc == AtClosePrev && s.parent.prev.Some?) || s.parent.pc == ParentPc.AtCloseWrite
    case ChildStep(j) =>
      IsLive(s, j) && s.children[j].pc != Running
      && (s.children[j].pc == AtDupIn || s.children[j].pc == AtCloseIn ==> s.children[j].prev.Some?)
    case ChildExits(j) => IsLive(s, j)
  }

  /** The next turn of the loop, for command i. */
  function Turn(n: nat, i: nat, table: Table, prev: Option<nat>, ends: Ends): Parent {
    Parent(if i < n then AtPipe else Finished, i, table, prev, ends)
  }

  function AfterPipe(p: Parent, ends: Ends): Parent {
    p.(pc := AtFork, ends := ends, table := p.table[ends.read := ReadEnd(p.i)][ends.write := WriteEnd(p.i)])
  }

  /** Where the parent goes on when the previous read end is dealt with. */
  function AfterPrev(n: nat, p: Parent): Parent {
    if p.i + 1 < n then p.(pc := ParentPc.AtCloseWrite) else Turn(n, p.i + 1, p.table, p.prev, p.ends)
  }

  function ForkedParent(n: nat, p: Parent): Parent {
    if p.prev.Some? then p.(pc := AtClosePrev) else AfterPrev(n, p)
  }

  function NewChild(n: nat, p: Parent): Child {
    Child(if p.prev.Some? then AtDupIn else OutPc(n, p.i), p.table, p.prev, p.ends)
  }

  /** Where child j goes on when its input is in place. */
  function OutPc(n: nat, j: nat): ChildPc { if j + 1 < n then AtDupOut else AtExec }

  function AfterClose(n: nat, p: Parent): Parent
    requires p.pc == AtClosePrev ==> p.prev.Some?
  {
    if p.pc == AtClosePrev then AfterPrev(n, p.(table := Close(p.table, p.prev.value)))
    else Turn(n, p.i + 1, Close(p.table, p.ends.write), Some(p.ends.read), p.ends)
  }

  function AfterStep(n: nat, j: nat, c: Child): Child
    requires c.pc == AtDupIn || c.pc == AtCloseIn ==> c.prev.Some?
  {
    match c.pc
    case AtDupIn => c.(table := Dup2(c.table, c.prev.value, STDIN), pc := AtCloseIn)
    case AtCloseIn => c.(table := Close(c.table, c.prev.value), pc := OutPc(n, j))
    case AtDupOut => c.(table := Dup2(c.table, c.ends.write, STDOUT), pc := AtCloseRead)
    case AtCloseRead => c.(table := Close(c.table, c.ends.read), pc := ChildPc.AtCloseWrite)
    case AtCloseWrite => c.(table := Close(c.table, c.ends.write), pc := AtExec)
    case AtExec => c.(pc := Running)
    case _ => c
  }

  function Apply(s: State, e: Event): State
    requires Enabled(s, e)
  {
    match e
    case Pipe(ends) => s.(parent := AfterPipe(s.parent, ends))
    case PipeFails => s.(parent := s.parent.(pc := GaveUp, table := map[]))
    case Fork => s.(parent := ForkedParent(s.n, s.parent), children := s.children + [NewChild(s.n, s.parent)])
    case ForkFails => s.(parent := s.parent.(pc := GaveUp))
    case ParentClose => s.(parent := AfterClose(s.n, s.parent))
    case ChildStep(j) => s.(children := s.children[j := AfterStep(s.n, j, s.children[j])])
    case ChildExits(j) => s.(children := s.children[j := s.children[j].(pc := Exited, table := map[])])
  }

  function Step(s: State, e: Event): (r: Option<State>) {
    if Enabled(s, e) then Some(Apply(s, e)) else None
  }

  /** n commands, started with the descriptors `base`, none of which is an end of a pipe made here. */
  predicate Init(s: State) {
    && (forall fd :: fd in s.base ==> s.base[fd].Other?)
    && s == State(s.n, s.base, Turn(s.n, 0, s.base, None, s.parent.ends), [])
  }

  // ---------- The tables, place by place ----------

  predicate Standard(base: Table) {
    STDIN in base && STDOUT in base && forall fd :: fd in base ==> base[fd].Other?
  }

  predicate PrevIs(base: Table, i: nat, prev: Option<nat>) {
    (prev.Some? <==> 0 < i) && (prev.Some? ==> prev.value !in base)
  }

  predicate EndsAre(base: Table, prev: Option<nat>, ends: Ends) {
    ends.read !in base && ends.write !in base && ends.read != ends.write
    && (prev.Some? ==> prev.value != ends.read && prev.value != ends.write)
  }

  function WithPrev(t: Table, i: nat, prev: Option<nat>): Table
    requires prev.Some? ==> 0 < i
  {
    if prev.None? then t else t[prev.value := ReadEnd(i - 1)]
  }

  function WithPipe(t: Table, i: nat, ends: Ends): Table {
    t[ends.read := ReadEnd(i)][ends.write := WriteEnd(i)]
  }

  /** Command j with its input moved to descriptor 0. */
  function InPlace(base: Table, j: nat): Table {
    if j == 0 then base else base[STDIN := ReadEnd(j - 1)]
  }

  /** The descriptors command j starts with; the last command has both ends of the last pipe as well. */
  function Wired(n: nat, base: Table, j: nat, ends: Ends): Table {
    if j + 1 < n then InPlace(base, j)[STDOUT := WriteEnd(j)] else WithPipe(InPlace(base, j), j, ends)
  }

  predicate ParentInv(n: nat, base: Table, p: Parent) {
    match p.pc
    case AtPipe => p.i < n && PrevIs(base, p.i, p.prev) && p.table == WithPrev(base, p.i, p.prev)
    case AtFork =>
      p.i < n && PrevIs(base, p.i, p.prev) && EndsAre(base, p.prev, p.ends)
      && p.table == WithPipe(WithPrev(base, p.i, p.prev), p.i, p.ends)
    case AtClosePrev =>
      p.i < n && PrevIs(base, p.i, p.prev) && p.prev.Some? && EndsAre(base, p.prev, p.ends)
      && p.table == WithPipe(WithPrev(base, p.i, p.prev), p.i, p.ends)
    case AtCloseWrite => p.i + 1 < n && EndsAre(base, None, p.ends) && p.table == WithPipe(base, p.i, p.ends)
    case Finished =>
      p.i == n && (n == 0 ==> p.table == base)
      && (0 < n ==> EndsAre(base, None, p.ends) && p.table == WithPipe(base, n - 1, p.ends))
    case GaveUp =>
      p.i < n && (p.table == map[] ||
      (PrevIs(base, p.i, p.prev) && EndsAre(base, p.prev, p.ends)
      && p.table == WithPipe(WithPrev(base, p.i, p.prev), p.i, p.ends)))
  }

  predicate ChildInv(n: nat, base: Table, j: nat, c: Child) {
    && PrevIs(base, j, c.prev) && EndsAre(base, c.prev, c.ends)
    && match c.pc
       case AtDupIn => 0 < j && c.table == WithPipe(WithPrev(base, j, c.prev), j, c.ends)
       case AtCloseIn => 0 < j && c.table == WithPipe(WithPrev(base, j, c.prev), j, c.ends)[STDIN := ReadEnd(j - 1)]
       case AtDupOut => j + 1 < n && c.table == WithPipe(InPlace(base, j), j, c.ends)
       case AtCloseRead => j + 1 < n && c.table == WithPipe(InPlace(base, j), j, c.ends)[STDOUT := WriteEnd(j)]
       case AtCloseWrite =>
         j + 1 < n && c.table == InPlace(base, j)[STDOUT := WriteEnd(j)][c.ends.write := WriteEnd(j)]
       case Exited => c.table == map[]
       case _ => c.table == Wired(n, base, j, c.ends)
  }

  /** How many commands have been forked. */
  function Forked(p: Parent): nat {
    match p.pc
    case AtClosePrev => p.i + 1
    case AtCloseWrite => p.i + 1
    case _ => p.i
  }

  predicate Inv(s: State) {
    && Standard(s.base) && ParentInv(s.n, s.base, s.parent)
    && |s.children| == Forked(s.parent) <= s.n
    && forall j :: 0 <= j < |s.children| ==> ChildInv(s.n, s.base, j, s.children[j])
  }

  lemma ParentPipe(n: nat, base: Table, p: Parent, ends: Ends)
    requires Standard(base) && ParentInv(n, base, p) && p.pc == AtPipe
    requires ends.read !in p.table && ends.write !in p.table[ends.read := ReadEnd(p.i)]
    ensures ParentInv(n, base, AfterPipe(p, ends))
  {}

  lemma ParentCloses(n: nat, base: Table, p: Parent)
    requires Standard(base) && ParentInv(n, base, p)
    requires p.pc == AtClosePrev || p.pc == ParentPc.AtCloseWrite
    ensures ParentInv(n, base, AfterClose(n, p))
  {
    if p.pc == AtClosePrev {
      assert Close(p.table, p.prev.value) == WithPipe(base, p.i, p.ends);
    } else {
      assert Close(p.table, p.ends.write) == base[p.ends.read := ReadEnd(p.i)];
    }
  }

  lemma Forking(n: nat, base: Table, p: Parent)
    requires Standard(base) && ParentInv(n, base, p) && p.pc == AtFork
    ensures ParentInv(n, base, ForkedParent(n, p)) && Forked(ForkedParent(n, p)) == p.i + 1
    ensures ChildInv(n, base, p.i, NewChild(n, p))
  {}

  lemma ChildStepKeeps(n: nat, base: Table, j: nat, c: Child)
    requires Standard(base) && ChildInv(n, base, j, c)
    ensures ChildInv(n, base, j, AfterStep(n, j, c))
  {
    var t := AfterStep(n, j, c).table;
    match c.pc
    case AtCloseIn => assert t == WithPipe(InPlace(base, j), j, c.ends);
    case AtCloseRead => assert t == InPlace(base, j)[STDOUT := WriteEnd(j)][c.ends.write := WriteEnd(j)];
    case AtCloseWrite => assert t == InPlace(base, j)[STDOUT := WriteEnd(j)];
    case _ =>
  }

  lemma InvStep(s: State, e: Event)
    requires Inv(s) && Enabled(s, e)
    ensures Inv(Apply(s, e)) && Apply(s, e).n == s.n && Apply(s, e).base == s.base
  {
    match e
    case Pipe(ends) => ParentPipe(s.n, s.base, s.parent, ends);
    case Fork => Forking(s.n, s.base, s.parent);
    case ParentClose => ParentCloses(s.n, s.base, s.parent);
    case ChildStep(j) => ChildStepKeeps(s.n, s.base, j, s.children[j]);
    case _ =>
  }

  lemma InvRun(s: State, es: seq<Event>)
    requires Init(s) && Standard(s.base) && Exec(Step, s, es).Some?
    ensures var t := Exec(Step, s, es).value; Inv(t) && t.n == s.n && t.base == s.base
  {
    var inv := (t: State) => Inv(t) && t.n == s.n && t.base == s.base;
    forall t, e | inv(t) && Step(t, e).Some? ensures inv(Step(t, e).value) {
      InvStep(t, e);
    }
    Invariance(Step, inv, s, es);
  }
}
