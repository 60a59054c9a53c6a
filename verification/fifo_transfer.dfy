/**
 File copy through a named pipe: nested read and write loops on both sides of a bounded byte stream.
 The child sees the end of the stream when the pipe is empty and the parent has closed its end.
 */
module FifoTransfer {
  import opened Runs
  import opened Sequences
  import opened CopySpec

  const BUF_SIZE := 4096

  datatype Parent = PRead | PWrite(block: seq<byte>, written: nat) | PEnd(sawEof: bool)

  datatype Child = CRead | CWrite(block: seq<byte>, written: nat) | CExit(code: int, sawEnd: bool)

  datatype State = State(
    input: seq<byte>, pos: nat, output: seq<byte>,
    capacity: nat, pipe: seq<byte>, parent: Parent, child: Child,
    piped: nat, taken: nat   // bytes ever written to the pipe, ever read from it
  )

  datatype Event = ParentRead(n: int) | ParentWrite(n: int) | ChildRead(n: int) | ChildWrite(n: int)

  /** Reading an empty pipe blocks until the parent writes or closes; writing to a full one blocks. */
  predicate Enabled(s: State, e: Event) {
    s.pos <= |s.input| &&
    match e
    case ParentRead(n) =>
      s.parent == PRead && -1 <= n <= BUF_SIZE && n <= |s.input| - s.pos && (n == 0 ==> s.pos == |s.input|)
    case ParentWrite(n) =>
      s.parent.PWrite? && s.parent.written < |s.parent.block|
      && -1 <= n <= |s.parent.block| - s.parent.written && |s.pipe| + n <= s.capacity
    case ChildRead(n) =>
      s.child == CRead && -1 <= n <= BUF_SIZE && n <= |s.pipe| && (n == 0 ==> s.pipe == [] && s.parent.PEnd?)
    case ChildWrite(n) =>
      s.child.CWrite? && s.child.written < |s.child.block| && -1 <= n <= |s.child.block| - s.child.written
  }

  function Apply(s: State, e: Event): State
    requires Enabled(s, e)
  {
    match e
    case ParentRead(n) =>
      if n > 0 then s.(pos := s.pos + n, parent := PWrite(s.input[s.pos..s.pos + n], 0))
      else s.(parent := PEnd(n == 0))
    case ParentWrite(n) =>
      var PWrite(b, w) := s.parent;
      if n > 0 then s.(pipe := s.pipe + b[w..w + n], piped := s.piped + n,
                       parent := if w + n == |b| then PRead else PWrite(b, w + n))
      else s.(parent := PEnd(false))
    case ChildRead(n) =>
      if n > 0 then s.(pipe := s.pipe[n..], taken := s.taken + n, child := CWrite(s.pipe[..n], 0))
      else s.(child := CExit(0, n == 0))
    case ChildWrite(n) =>
      var CWrite(b, w) := s.child;
      if n > 0 then s.(output := s.output + b[w..w + n], child := if w + n == |b| then CRead else CWrite(b, w + n))
      else s.(child := CExit(1, false))
  }

  function Step(s: State, e: Event): (r: Option<State>) {
    if Enabled(s, e) then Some(Apply(s, e)) else None
  }

  predicate Init(s: State) { s == State(s.input, 0, [], s.capacity, [], PRead, CRead, 0, 0) }

  // ---------- Invariant ----------

  /** part is the input from position `from` on. */
  predicate Piece(input: seq<byte>, from: int, part: seq<byte>) {
    0 <= from && from + |part| <= |input| && input[from..from + |part|] == part
  }

  predicate ParentFits(s: State) {
    match s.parent
    case PRead => s.pos == s.piped
    case PWrite(b, w) => w < |b| && s.pos == s.piped - w + |b| && Piece(s.input, s.piped - w, b)
    case PEnd(sawEof) => sawEof ==> s.piped == |s.input|
  }

  predicate ChildFits(s: State) {
    match s.child
    case CRead => |s.output| == s.taken
    case CWrite(b, w) => w < |b| && |s.output| == s.taken - |b| + w && Piece(s.input, s.taken - |b|, b)
    case CExit(code, sawEnd) =>
      (code == 1 ==> !sawEnd) && (sawEnd ==> |s.output| == s.taken == s.piped && s.parent.PEnd?)
  }

  predicate Inv(s: State) {
    && s.pos <= |s.input| && s.taken + |s.pipe| == s.piped
    && Piece(s.input, 0, s.output) && Piece(s.input, s.taken, s.pipe) && ParentFits(s) && ChildFits(s)
  }

  lemma PieceJoin(input: seq<byte>, from: int, a: seq<byte>, b: seq<byte>)
    requires Piece(input, from, a) && Piece(input, from + |a|, b)
    ensures Piece(input, from, a + b)
  {}

  lemma PieceOf(input: seq<byte>, from: int, a: seq<byte>, i: nat, j: nat)
    requires Piece(input, from, a) && i <= j <= |a|
    ensures Piece(input, from + i, a[i..j])
  {
    Subrange(input, from, |a|, i, j - i);
  }

  lemma PieceSplit(input: seq<byte>, from: int, a: seq<byte>, n: nat)
    requires Piece(input, from, a) && n <= |a|
    ensures Piece(input, from, a[..n]) && Piece(input, from + n, a[n..])
  {
    PieceOf(input, from, a, 0, n);
    PieceOf(input, from, a, n, |a|);
    assert a[..n] == a[0..n] && a[n..] == a[n..|a|];
  }

  lemma InvParentRead(s: State, n: int)
    requires Inv(s) && Enabled(s, ParentRead(n))
    ensures Inv(Apply(s, ParentRead(n)))
  {}

  /** Bytes w to w + n of the block go on where the pipe ends. */
  lemma PipeGrows(s: State, b: seq<byte>, w: nat, n: nat)
    requires Inv(s) && s.parent == PWrite(b, w) && w + n <= |b|
    ensures Piece(s.input, s.taken, s.pipe + b[w..w + n])
  {
    PieceOf(s.input, s.piped - w, b, w, w + n);
    PieceJoin(s.input, s.taken, s.pipe, b[w..w + n]);
  }

  lemma InvParentWrite(s: State, n: int)
    requires Inv(s) && Enabled(s, ParentWrite(n))
    ensures Inv(Apply(s, ParentWrite(n)))
  {
    if 0 < n { PipeGrows(s, s.parent.block, s.parent.written, n); }
  }

  lemma InvChildRead(s: State, n: int)
    requires Inv(s) && Enabled(s, ChildRead(n))
    ensures Inv(Apply(s, ChildRead(n)))
  {
    if 0 < n { PieceSplit(s.input, s.taken, s.pipe, n); }
  }

  lemma InvChildWrite(s: State, n: int)
    requires Inv(s) && Enabled(s, ChildWrite(n))
    ensures Inv(Apply(s, ChildWrite(n)))
  {
    if 0 < n {
      var CWrite(b, w) := s.child;
      PieceOf(s.input, s.taken - |b|, b, w, w + n);
      PieceJoin(s.input, 0, s.output, b[w..w + n]);
    }
  }

  lemma InvStep(s: State, e: Event)
    requires Inv(s) && Enabled(s, e)
    ensures Inv(Apply(s, e))
  {
    match e
    case ParentRead(n) => InvParentRead(s, n);
    case ParentWrite(n) => InvParentWrite(s, n);
    case ChildRead(n) => InvChildRead(s, n);
    case ChildWrite(n) => InvChildWrite(s, n);
  }

  lemma InvRun(s: State, es: seq<Event>)
    requires Init(s) && Exec(Step, s, es).Some?
    ensures Inv(Exec(Step, s, es).value) && Exec(Step, s, es).value.input == s.input
  {
    var inv := (t: State) => Inv(t) && t.input == s.input;
    forall t, e | inv(t) && Step(t, e).Some? ensures inv(Step(t, e).value) { InvStep(t, e); }
    Invariance(Step, inv, s, es);
  }

  // ---------- What is promised ----------

  /** Every step is a step of the copy specification, whatever fails. */
  lemma RefinesCopy(s: State, es: seq<Event>, e: Event)
    requires Init(s) && Exec(Step, s, es).Some? && Enabled(Exec(Step, s, es).value, e)
    ensures CopyStep(s.input, Exec(Step, s, es).value.output, Apply(Exec(Step, s, es).value, e).output)
  {
    InvRun(s, es);
    InvStep(Exec(Step, s, es).value, e);
  }

  /**
   A child that stops at the end of the stream has written out exactly what went through the pipe; so
   the copy is complete exactly when the parent passed on everything, which it did if it saw the end.
   */
  lemma EndOfStreamMeansAllPassed(s: State, es: seq<Event>)
    requires Init(s) && Exec(Step, s, es).Some? && Exec(Step, s, es).value.child == CExit(0, true)
    ensures var t := Exec(Step, s, es).value;
            && t.piped <= |s.input| && t.output == s.input[..t.piped] && t.pipe == []
            && (t.output == s.input <==> t.piped == |s.input|)
            && (t.parent.PEnd? && t.parent.sawEof ==> t.output == s.input)
  {
    InvRun(s, es);
  }

  // ---------- How the two end ----------

  predicate Met(es: seq<Event>, e: Event) { exists i :: 0 <= i < |es| && es[i] == e }

  /** A read or write of the parent, a write of the child that gave nothing. */
  predicate ParentStopped(es: seq<Event>) {
    exists i :: 0 <= i < |es| && ((es[i].ParentRead? || es[i].ParentWrite?) && es[i].n <= 0)
  }

  predicate ChildWriteFailed(es: seq<Event>) { exists i :: 0 <= i < |es| && es[i].ChildWrite? && es[i].n <= 0 }

  predicate ChildReadStopped(es: seq<Event>) { exists i :: 0 <= i < |es| && es[i].ChildRead? && es[i].n <= 0 }

  lemma MetAppend(es: seq<Event>, e: Event, x: Event)
    ensures Met(es + [e], x) <==> Met(es, x) || e == x
    ensures ParentStopped(es + [e]) <==> ParentStopped(es) || ((e.ParentRead? || e.ParentWrite?) && e.n <= 0)
    ensures ChildWriteFailed(es + [e]) <==> ChildWriteFailed(es) || (e.ChildWrite? && e.n <= 0)
    ensures ChildReadStopped(es + [e]) <==> ChildReadStopped(es) || (e.ChildRead? && e.n <= 0)
  {
    var fs := es + [e];
    assert fs[|es|] == e && forall i :: 0 <= i < |es| ==> fs[i] == es[i];
  }

  predicate MatchesHistory(t: State, es: seq<Event>) {
    && (t.parent.PEnd? <==> ParentStopped(es))
    && (t.parent.PEnd? && t.parent.sawEof <==> Met(es, ParentRead(0)))
    && (t.child.CExit? && t.child.code == 1 <==> ChildWriteFailed(es))
    && (t.child.CExit? && t.child.code == 0 <==> ChildReadStopped(es))
    && (t.child.CExit? && t.child.sawEnd <==> Met(es, ChildRead(0)))
  }

  /**
   In every run: the parent has ended exactly after a read or write that gave nothing; the child has exit code 1
   exactly after a failed write and 0 exactly after the end of the stream or a failed read, which it mistakes
   for the end.
   */
  lemma {:induction false} HowTheyEnd(s: State, es: seq<Event>)
    requires Init(s) && Exec(Step, s, es).Some?
    ensures MatchesHistory(Exec(Step, s, es).value, es)
    decreases |es|
  {
    if es != [] {
      var fs, e := es[..|es| - 1], es[|es| - 1];
      assert es == fs + [e];
      HowTheyEnd(s, fs);
      InvRun(s, fs);
      HistoryStep(Exec(Step, s, fs).value, fs, e);
    }
  }

  lemma HistoryStep(t: State, fs: seq<Event>, e: Event)
    requires Inv(t) && Enabled(t, e) && MatchesHistory(t, fs)
    ensures MatchesHistory(Apply(t, e), fs + [e])
  {
    MetAppend(fs, e, ParentRead(0));
    MetAppend(fs, e, ChildRead(0));
  }

  // ---------- Progress ----------

  predicate Benign(e: Event) {
    match e
    case ParentRead(n) => 0 <= n
    case ParentWrite(n) => 0 < n
    case ChildRead(n) => 0 <= n
    case ChildWrite(n) => 0 < n
  }

  function BenignStep(s: State, e: Event): Option<State> {
    if Benign(e) then Step(s, e) else None
  }

  function ParentWeight(p: Parent): nat { match p case PRead => 1 case PWrite(_, _) => 2 case PEnd(_) => 0 }

  function ChildWeight(c: Child): nat { match c case CRead => 1 case CWrite(_, _) => 2 case CExit(_, _) => 0 }

  /** Four moves for each byte, and the present phases. */
  function Remaining(s: State): int {
    2 * (|s.input| - s.pos) + 2 * (|s.input| - s.piped) + 2 * (|s.input| - s.taken) + 2 * (|s.input| - |s.output|)
    + ParentWeight(s.parent) + ChildWeight(s.child)
  }

  lemma RemainingStep(s: State, e: Event)
    requires Inv(s) && Benign(e) && Enabled(s, e)
    ensures 0 <= Remaining(Apply(s, e)) < Remaining(s)
  {
    InvStep(s, e);
  }

  predicate Smooth(s: State) {
    (s.parent.PEnd? ==> s.parent.sawEof) && (s.child.CExit? ==> s.child == CExit(0, true))
  }

  lemma BenignRun(s: State, es: seq<Event>)
    requires Init(s) && Exec(BenignStep, s, es).Some?
    ensures var t := Exec(BenignStep, s, es).value;
            Inv(t) && Smooth(t) && t.input == s.input && t.capacity == s.capacity
  {
    var inv := (t: State) => Inv(t) && Smooth(t) && t.input == s.input && t.capacity == s.capacity;
    forall t, e | inv(t) && BenignStep(t, e).Some? ensures inv(BenignStep(t, e).value) { InvStep(t, e); }
    Invariance(BenignStep, inv, s, es);
  }

  lemma {:induction false} RunsAreFinite(s: State, es: seq<Event>)
    requires Init(s) && Exec(BenignStep, s, es).Some?
    ensures |es| + Remaining(Exec(BenignStep, s, es).value) <= Remaining(s) == 8 * |s.input| + 2
    ensures |es| <= 8 * |s.input| + 2
    decreases |es|
  {
    if es != [] {
      var fs, e := es[..|es| - 1], es[|es| - 1];
      RunsAreFinite(s, fs);
      BenignRun(s, fs);
      RemainingStep(Exec(BenignStep, s, fs).value, e);
    }
  }

  lemma NextEvent(s: State) returns (e: Event)
    requires Inv(s) && Smooth(s) && 0 < s.capacity && (s.child.CExit? ==> !s.parent.PEnd?)
    ensures BenignStep(s, e).Some?
  {
    if s.child.CWrite? {
      e := ChildWrite(1);
    } else if s.child == CRead && s.pipe != [] {
      e := ChildRead(1);
    } else if s.parent == PRead {
      e := ParentRead(if s.pos < |s.input| then 1 else 0);
    } else if s.parent.PWrite? {
      e := ParentWrite(1);
    } else {
      e := ChildRead(0);
    }
  }

  /** Without failures no process blocks for ever, and a run that cannot go on has copied the file. */
  lemma MaximalRunsDeliver(s: State, es: seq<Event>)
    requires Init(s) && 0 < s.capacity && Exec(BenignStep, s, es).Some?
    requires forall e :: BenignStep(Exec(BenignStep, s, es).value, e) == None
    ensures var t := Exec(BenignStep, s, es).value;
            t.parent.PEnd? && t.child == CExit(0, true) && t.output == s.input
  {
    BenignRun(s, es);
    var t := Exec(BenignStep, s, es).value;
    if !(t.child.CExit? && t.parent.PEnd?) {
      var _ := NextEvent(t);
    }
  }
}
