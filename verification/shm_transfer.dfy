/**
 File copy through one shared buffer and a set of two semaphores: semaphore 0 lets the parent fill the
 buffer, semaphore 1 lets the child write it out.  Every semaphore operation may fail, and the parent
 removes the set when it ends.
 */
module ShmTransfer {
  import opened Runs
  import opened CopySpec

  const SHM_SIZE := 4096 * 1024

  datatype Parent =
    | PWait | PRead
    | PHave(n: nat)        // read returned n > 0
    | PSend                // buf_size and eof stored, about to signal the child
    | PEof | PSendEof      // read returned 0
    | PError               // read returned -1
    | PClose | PEnd        // out of the loop; semaphores removed

  datatype Child =
    | CWait | CTest | CWrite(total: nat, written: nat) | CEof | CExit(code: int)

  datatype State = State(
    input: seq<byte>, pos: nat, output: seq<byte>,
    buffer: seq<byte>, bufSize: nat, eof: bool,
    sem0: nat, sem1: nat, removed: bool,
    parent: Parent, child: Child,
    sawEof: bool   // the parent has read to the end of the input
  )

  datatype Event =
    | ParentWait(ok: bool) | Read(n: int) | StoreFields | ParentSignal(ok: bool) | Remove
    | ChildWait(ok: bool) | ChildTest | Write(n: int) | ChildSignal(ok: bool)

  predicate Enabled(s: State, e: Event) {
    |s.buffer| == SHM_SIZE && s.pos <= |s.input| &&
    match e
    case ParentWait(ok) => s.parent == PWait && (ok ==> 0 < s.sem0 && !s.removed)
    case Read(n) =>
      s.parent == PRead && -1 <= n <= SHM_SIZE && n <= |s.input| - s.pos && (n == 0 ==> s.pos == |s.input|)
    case StoreFields => (s.parent.PHave? && s.parent.n <= SHM_SIZE) || s.parent == PEof
    case ParentSignal(ok) => (s.parent == PSend || s.parent == PSendEof || s.parent == PError) && (ok ==> !s.removed)
    case Remove => s.parent == PClose
    case ChildWait(ok) => s.child == CWait && (ok ==> 0 < s.sem1 && !s.removed)
    case ChildTest => s.child == CTest
    case Write(n) =>
      s.child.CWrite? && s.child.written < s.child.total <= SHM_SIZE && -1 <= n <= s.child.total - s.child.written
    case ChildSignal(ok) =>
      ((s.child.CWrite? && s.child.written == s.child.total) || s.child == CEof) && (ok ==> !s.removed)
  }

  function AfterRead(s: State, n: int): State
    requires Enabled(s, Read(n))
  {
    if n > 0 then
      s.(buffer := s.input[s.pos..s.pos + n] + s.buffer[n..], pos := s.pos + n, parent := PHave(n))
    else if n == 0 then s.(parent := PEof, sawEof := true)
    else s.(parent := PError)
  }

  function AfterParentSignal(s: State, ok: bool): State {
    match s.parent
    case PError => s.(sem0 := if ok then s.sem0 + 1 else s.sem0, parent := PClose)
    case PSendEof => s.(sem1 := if ok then s.sem1 + 1 else s.sem1, parent := PClose)
    case _ => if ok then s.(sem1 := s.sem1 + 1, parent := PWait) else s.(parent := PClose)
  }

  function AfterWrite(s: State, n: int): State
    requires Enabled(s, Write(n))
  {
    var CWrite(total, w) := s.child;
    if n > 0 then s.(output := s.output + s.buffer[w..w + n], child := CWrite(total, w + n))
    else s.(child := CExit(1))
  }

  function AfterChildSignal(s: State, ok: bool): State {
    var t := if ok then s.(sem0 := s.sem0 + 1) else s;
    if s.child == CEof then t.(child := CExit(0)) else t.(child := if ok then CWait else CExit(1))
  }

  function Apply(s: State, e: Event): State
    requires Enabled(s, e)
  {
    match e
    case ParentWait(ok) => if ok then s.(sem0 := s.sem0 - 1, parent := PRead) else s.(parent := PClose)
    case Read(n) => AfterRead(s, n)
    case StoreFields =>
      if s.parent == PEof then s.(eof := true, bufSize := 0, parent := PSendEof)
      else s.(bufSize := s.parent.n, eof := false, parent := PSend)
    case ParentSignal(ok) => AfterParentSignal(s, ok)
    case Remove => s.(removed := true, parent := PEnd)
    case ChildWait(ok) => if ok then s.(sem1 := s.sem1 - 1, child := CTest) else s.(child := CExit(1))
    case ChildTest => if s.eof then s.(child := CEof) else s.(child := CWrite(s.bufSize, 0))
    case Write(n) => AfterWrite(s, n)
    case ChildSignal(ok) => AfterChildSignal(s, ok)
  }

  function Step(s: State, e: Event): (r: Option<State>) {
    if Enabled(s, e) then Some(Apply(s, e)) else None
  }

  /** Semaphore 0 starts at 1, semaphore 1 at 0; the segment may hold anything. */
  predicate Init(s: State) {
    && |s.buffer| == SHM_SIZE
    && s == State(s.input, 0, [], s.buffer, s.bufSize, s.eof, 1, 0, false, PWait, CWait, false)
  }

  // ---------- The baton ----------

  predicate ParentInBuffer(s: State) {
    s.parent == PRead || s.parent.PHave? || s.parent == PSend || s.parent == PEof || s.parent == PSendEof
    || s.parent == PError
  }

  predicate ChildInBuffer(s: State) {
    s.child == CTest || s.child.CWrite? || s.child == CEof
  }

  function Batons(s: State): nat {
    s.sem0 + s.sem1 + (if ParentInBuffer(s) then 1 else 0) + (if ChildInBuffer(s) then 1 else 0)
  }

  predicate Ended(s: State) { s.parent == PClose || s.parent == PEnd }

  predicate Baton(s: State) {
    && Batons(s) <= 1
    && (!Ended(s) && !s.child.CExit? ==> Batons(s) == 1)
    && (s.removed ==> s.parent == PEnd)
  }

  // ---------- The data ----------

  /** What the buffer holds for the child: the next block, or the end mark. */
  predicate Filled(s: State)
    requires |s.buffer| == SHM_SIZE && s.pos <= |s.input|
  {
    if s.eof then s.sawEof && s.output == s.input
    else 0 < s.bufSize <= SHM_SIZE && s.output + s.buffer[..s.bufSize] == s.input[..s.pos]
  }

  predicate Data(s: State)
    requires |s.buffer| == SHM_SIZE && s.pos <= |s.input|
  {
    && (0 < s.sem0 || s.parent == PRead || s.parent == PError ==> s.output == s.input[..s.pos])
    && (0 < s.sem1 || s.child == CTest ==> Filled(s))
    && (match s.parent
        case PHave(n) => 0 < n <= SHM_SIZE && s.output + s.buffer[..n] == s.input[..s.pos]
        case PSend => !s.eof && Filled(s)
        case PEof => s.sawEof
        case PSendEof => s.sawEof && s.eof
        case _ => true)
    && (match s.child
        case CWrite(total, w) => w <= total <= SHM_SIZE && !s.eof && s.output + s.buffer[w..total] == s.input[..s.pos]
        case CEof => s.sawEof
        case _ => true)
    && (s.sawEof ==> s.output == s.input && s.pos == |s.input|)
    && s.output <= s.input[..s.pos]
  }

  predicate Inv(s: State) {
    |s.buffer| == SHM_SIZE && s.pos <= |s.input| && Baton(s) && Data(s)
  }

  lemma InvRead(s: State, n: int)
    requires Inv(s) && Enabled(s, Read(n))
    ensures Inv(AfterRead(s, n))
  {
    if 0 < n {
      var t := AfterRead(s, n);
      assert t.buffer[..n] == s.input[s.pos..s.pos + n];
      assert s.input[..s.pos] + s.input[s.pos..s.pos + n] == s.input[..s.pos + n];
      assert s.output <= t.input[..t.pos];
    }
  }

  lemma InvWrite(s: State, n: int)
    requires Inv(s) && Enabled(s, Write(n))
    ensures Inv(AfterWrite(s, n))
  {
    if 0 < n {
      var CWrite(total, w) := s.child;
      var t := AfterWrite(s, n);
      assert s.buffer[w..total] == s.buffer[w..w + n] + s.buffer[w + n..total];
      assert t.output + s.buffer[w + n..total] == s.output + s.buffer[w..total];
      assert t.output <= t.output + s.buffer[w + n..total];
    }
  }

  lemma InvParent(s: State, e: Event)
    requires Inv(s) && Enabled(s, e) && (e.ParentWait? || e.StoreFields? || e.ParentSignal? || e.Remove?)
    ensures Inv(Apply(s, e))
  {}

  lemma InvChild(s: State, e: Event)
    requires Inv(s) && Enabled(s, e) && (e.ChildWait? || e.ChildTest? || e.ChildSignal?)
    ensures Inv(Apply(s, e))
  {
    if e.ChildSignal? && s.child.CWrite? {
      assert s.output + s.buffer[s.child.written..s.child.total] == s.output;
    }
  }

  lemma InvStep(s: State, e: Event)
    requires Inv(s) && Enabled(s, e)
    ensures Inv(Apply(s, e))
  {
    match e
    case Read(n) => InvRead(s, n);
    case Write(n) => InvWrite(s, n);
    case ParentWait(_) => InvParent(s, e);
    case StoreFields => InvParent(s, e);
    case ParentSignal(_) => InvParent(s, e);
    case Remove => InvParent(s, e);
    case _ => InvChild(s, e);
  }

  lemma InvRun(s: State, es: seq<Event>)
    requires Init(s) && Exec(Step, s, es).Some?
    ensures Inv(Exec(Step, s, es).value) && Exec(Step, s, es).value.input == s.input
  {
    var inv := (t: State) => Inv(t) && t.input == s.input;
    forall t, e | inv(t) && Step(t, e).Some? ensures inv(Step(t, e).value) { InvStep(t, e); }
    Invariance(Step, inv, s, es);
  }

  // ---------- Safety ----------

  /** There is never more than one baton, and the two processes are never in the buffer together. */
  lemma OneBaton(s: State, es: seq<Event>)
    requires Init(s) && Exec(Step, s, es).Some?
    ensures var t := Exec(Step, s, es).value;
            && Batons(t) <= 1 && !(ParentInBuffer(t) && ChildInBuffer(t))
            && (!Ended(t) && !t.child.CExit? ==> Batons(t) == 1)
  {
    InvRun(s, es);
  }

  /** Every step of every run is a step of the copy specification, whatever fails. */
  lemma RefinesCopy(s: State, es: seq<Event>, e: Event)
    requires Init(s) && Exec(Step, s, es).Some? && Enabled(Exec(Step, s, es).value, e)
    ensures CopyStep(s.input, Exec(Step, s, es).value.output, Apply(Exec(Step, s, es).value, e).output)
  {
    InvRun(s, es);
    InvStep(Exec(Step, s, es).value, e);
  }

  /**
   Once the parent has seen the end of the input the output is complete, so it does not matter whether
   the child then sees the eof flag or finds the semaphores removed.
   */
  lemma CompleteAtEof(s: State, es: seq<Event>)
    requires Init(s) && Exec(Step, s, es).Some? && Exec(Step, s, es).value.sawEof
    ensures Exec(Step, s, es).value.output == s.input
  {
    InvRun(s, es);
  }

  /** A child that has seen the end mark exits with 0 and the whole output, whether or not its last signal fails. */
  lemma EndMarkMeansSuccess(s: State, es: seq<Event>, ok: bool)
    requires Init(s) && Exec(Step, s, es + [ChildSignal(ok)]).Some?
    requires Exec(Step, s, es).Some? && Exec(Step, s, es).value.child == CEof
    ensures var t := Exec(Step, s, es + [ChildSignal(ok)]).value; t.child == CExit(0) && t.output == s.input
  {
    ExecAppend(Step, s, es, ChildSignal(ok));
    InvRun(s, es);
  }

  // ---------- Progress ----------

  /** No operation fails, except on a set that was removed. */
  predicate Benign(s: State, e: Event) {
    match e
    case ParentWait(ok) => ok
    case Read(n) => 0 <= n
    case ParentSignal(ok) => ok
    case ChildWait(ok) => ok || s.removed
    case Write(n) => 0 < n
    case ChildSignal(ok) => ok || s.removed
    case _ => true
  }

  function BenignStep(s: State, e: Event): Option<State> {
    if Benign(s, e) then Step(s, e) else None
  }

  function ParentWeight(p: Parent): nat {
    match p
    case PEnd => 0 case PClose => 2 case PSendEof => 18 case PEof => 19 case PError => 4 case PWait => 20
    case PRead => 20 case PSend => 25 case PHave(_) => 26
  }

  function ChildWeight(c: Child): nat {
    match c case CExit(_) => 0 case CEof => 5 case CWait => 20 case CWrite(_, _) => 22 case CTest => 23
  }

  /** An upper bound on the number of events still to come. */
  function Remaining(s: State): int {
    30 * (|s.input| - s.pos) + (s.pos - |s.output|) + s.sem0 + 4 * s.sem1
    + ParentWeight(s.parent) + ChildWeight(s.child)
  }

  lemma RemainingStep(s: State, e: Event)
    requires Inv(s) && Benign(s, e) && Enabled(s, e)
    ensures 0 <= Remaining(Apply(s, e)) < Remaining(s)
  {
    InvStep(s, e);
    var t := Apply(s, e);
    assert |t.output| <= t.pos;
  }

  predicate Smooth(s: State) {
    && s.parent != PError
    && (s.sawEof <==> Ended(s) || s.parent == PEof || s.parent == PSendEof)
    && (s.child.CExit? ==> s.sawEof)
    && (s.removed <==> s.parent == PEnd)
  }

  lemma SmoothStep(s: State, e: Event)
    requires Inv(s) && Smooth(s) && Benign(s, e) && Enabled(s, e)
    ensures Smooth(Apply(s, e))
  {}

  lemma BenignRun(s: State, es: seq<Event>)
    requires Init(s) && Exec(BenignStep, s, es).Some?
    ensures var t := Exec(BenignStep, s, es).value; Inv(t) && Smooth(t) && t.input == s.input
  {
    var inv := (t: State) => Inv(t) && Smooth(t) && t.input == s.input;
    forall t, e | inv(t) && BenignStep(t, e).Some? ensures inv(BenignStep(t, e).value) {
      InvStep(t, e);
      SmoothStep(t, e);
    }
    Invariance(BenignStep, inv, s, es);
  }

  lemma {:induction false} RunsAreFinite(s: State, es: seq<Event>)
    requires Init(s) && Exec(BenignStep, s, es).Some?
    ensures |es| + Remaining(Exec(BenignStep, s, es).value) <= Remaining(s) == 30 * |s.input| + 41
    ensures |es| <= 30 * |s.input| + 41
    decreases |es|
  {
    if es != [] {
      var fs, e := es[..|es| - 1], es[|es| - 1];
      RunsAreFinite(s, fs);
      BenignRun(s, fs);
      RemainingStep(Exec(BenignStep, s, fs).value, e);
    }
  }

  /** Both processes have ended and everything is copied; the exit code of the child may be 0 or 1. */
  predicate Finished(s: State) {
    s.parent == PEnd && s.child.CExit? && s.output == s.input
  }

  lemma NextEvent(s: State) returns (e: Event)
    requires Inv(s) && Smooth(s) && !Finished(s)
    ensures BenignStep(s, e).Some?
  {
    match s.child
    case CTest => e := ChildTest;
    case CWrite(total, w) => e := if w < total then Write(1) else ChildSignal(!s.removed);
    case CEof => e := ChildSignal(!s.removed);
    case _ =>
      match s.parent {
        case PRead => e := if s.pos < |s.input| then Read(1) else Read(0);
        case PHave(n) => e := StoreFields;
        case PEof => e := StoreFields;
        case PSend => e := ParentSignal(true);
        case PSendEof => e := ParentSignal(true);
        case PClose => e := Remove;
        case PEnd => e := ChildWait(false);
        case _ => e := if 0 < s.sem0 then ParentWait(true) else ChildWait(true);
      }
  }

  /** Before the end some process can always step, and a run that cannot go on has copied the file. */
  lemma MaximalRunsDeliver(s: State, es: seq<Event>)
    requires Init(s) && Exec(BenignStep, s, es).Some?
    requires forall e :: BenignStep(Exec(BenignStep, s, es).value, e) == None
    ensures Finished(Exec(BenignStep, s, es).value) && Exec(BenignStep, s, es).value.output == s.input
  {
    BenignRun(s, es);
    var t := Exec(BenignStep, s, es).value;
    if !Finished(t) {
      var _ := NextEvent(t);
    }
  }
}
