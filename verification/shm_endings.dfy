/** How the two processes of shm_transfer.dfy end, in every run, and when the child can still end with code 0. */
module ShmEndings {
  import opened Runs
  import opened ShmTransfer

  // ---------- What the history says ----------

  predicate ReadEnd(es: seq<Event>) { exists i :: 0 <= i < |es| && es[i] == Read(0) }

  /** The end mark was stored behind the read that met the end of the input. */
  predicate MarkStored(es: seq<Event>) {
    exists i, j :: 0 <= i < j < |es| && es[i] == Read(0) && es[j] == StoreFields
  }

  /** The child has tested the flag after that. */
  predicate SawMark(es: seq<Event>) {
    exists i, j, k :: 0 <= i < j < k < |es| && es[i] == Read(0) && es[j] == StoreFields && es[k] == ChildTest
  }

  /** And has signalled after that. */
  predicate SignalledAtEnd(es: seq<Event>) {
    exists l :: 0 <= l < |es| && es[l].ChildSignal? && SawMark(es[..l])
  }

  /** A failed wait, a write that gave nothing, or a failed signal before the end mark was seen. */
  predicate ChildFailed(es: seq<Event>) {
    exists k :: 0 <= k < |es| && (es[k] == ChildWait(false) || (es[k].Write? && es[k].n <= 0)
                                  || (es[k] == ChildSignal(false) && !SawMark(es[..k])))
  }

  predicate ReadStopped(es: seq<Event>) { exists i :: 0 <= i < |es| && es[i].Read? && es[i].n <= 0 }

  /** A failed wait, a failed signal, or the signal behind a read that gave nothing. */
  predicate ParentLeft(es: seq<Event>) {
    exists j :: 0 <= j < |es| && (es[j] == ParentWait(false) || es[j] == ParentSignal(false)
                                  || (es[j] == ParentSignal(true) && ReadStopped(es[..j])))
  }

  predicate Removed(es: seq<Event>) { exists i :: 0 <= i < |es| && es[i] == Remove }

  lemma ParentAppend(es: seq<Event>, e: Event)
    ensures ReadEnd(es + [e]) <==> ReadEnd(es) || e == Read(0)
    ensures ReadStopped(es + [e]) <==> ReadStopped(es) || (e.Read? && e.n <= 0)
    ensures MarkStored(es + [e]) <==> MarkStored(es) || (ReadEnd(es) && e == StoreFields)
    ensures Removed(es + [e]) <==> Removed(es) || e == Remove
  {
    var fs := es + [e];
    assert fs[|es|] == e && forall i :: 0 <= i < |es| ==> fs[i] == es[i];
  }

  lemma LeftAppend(es: seq<Event>, e: Event)
    ensures ParentLeft(es + [e]) <==>
              ParentLeft(es) || e == ParentWait(false) || e == ParentSignal(false)
              || (e == ParentSignal(true) && ReadStopped(es))
  {
    var fs := es + [e];
    assert fs[|es|] == e && fs[..|es|] == es && forall i :: 0 <= i < |es| ==> fs[i] == es[i] && fs[..i] == es[..i];
  }

  lemma FailedAppend(es: seq<Event>, e: Event)
    ensures ChildFailed(es + [e]) <==>
              ChildFailed(es) || e == ChildWait(false) || (e.Write? && e.n <= 0)
              || (e == ChildSignal(false) && !SawMark(es))
  {
    var fs := es + [e];
    assert fs[|es|] == e && fs[..|es|] == es && forall i :: 0 <= i < |es| ==> fs[i] == es[i] && fs[..i] == es[..i];
  }

  lemma SawAppend(es: seq<Event>, e: Event)
    ensures SawMark(es + [e]) <==> SawMark(es) || (MarkStored(es) && e == ChildTest)
  {
    var fs := es + [e];
    assert fs[|es|] == e && forall i :: 0 <= i < |es| ==> fs[i] == es[i];
  }

  lemma SignalledAppend(es: seq<Event>, e: Event)
    ensures SignalledAtEnd(es + [e]) <==> SignalledAtEnd(es) || (SawMark(es) && e.ChildSignal?)
  {
    var fs := es + [e];
    assert fs[|es|] == e && fs[..|es|] == es && forall i :: 0 <= i < |es| ==> fs[i] == es[i] && fs[..i] == es[..i];
  }

  // ---------- Every run ----------

  predicate MatchesHistory(t: State, es: seq<Event>) {
    && (t.sawEof <==> ReadEnd(es))
    && (MarkStored(es) <==> t.sawEof && t.parent != PEof)
    && (MarkStored(es) ==> t.eof)
    && (ReadStopped(es) <==>
          t.parent == PEof || t.parent == PSendEof || t.parent == PError || (Ended(t) && ReadStopped(es)))
    && (t.child == CEof || t.child == CExit(0) <==> SawMark(es))
    && (t.child == CExit(0) <==> SignalledAtEnd(es))
    && (t.child == CExit(1) <==> ChildFailed(es)) && (t.child.CExit? ==> t.child.code in {0, 1})
    && (Ended(t) <==> ParentLeft(es))
    && (t.removed <==> Removed(es)) && (t.parent == PEnd <==> Removed(es))
  }

  lemma ParentHistory(t: State, es: seq<Event>, e: Event)
    requires Inv(t) && Enabled(t, e) && MatchesHistory(t, es)
    ensures var u, fs := Apply(t, e), es + [e];
            && (u.sawEof <==> ReadEnd(fs)) && (MarkStored(fs) <==> u.sawEof && u.parent != PEof)
            && (MarkStored(fs) ==> u.eof)
            && (ReadStopped(fs) <==>
                  u.parent == PEof || u.parent == PSendEof || u.parent == PError || (Ended(u) && ReadStopped(fs)))
            && (Ended(u) <==> ParentLeft(fs))
            && (u.removed <==> Removed(fs)) && (u.parent == PEnd <==> Removed(fs))
  {
    ParentAppend(es, e);
    LeftAppend(es, e);
  }

  lemma ChildHistory(t: State, es: seq<Event>, e: Event)
    requires Inv(t) && Enabled(t, e) && MatchesHistory(t, es)
    ensures var u, fs := Apply(t, e), es + [e];
            && (u.child == CEof || u.child == CExit(0) <==> SawMark(fs))
            && (u.child == CExit(0) <==> SignalledAtEnd(fs))
            && (u.child == CExit(1) <==> ChildFailed(fs)) && (u.child.CExit? ==> u.child.code in {0, 1})
  {
    FailedAppend(es, e);
    SawAppend(es, e);
    SignalledAppend(es, e);
  }

  /**
   In every run: the parent is out of its loop exactly after a failed wait or signal or the signal behind a
   read that gave nothing, and has ended exactly when it removed the semaphores; the child has ended with 0
   exactly when it tested the flag behind the stored end mark and then signalled, and with 1 exactly after a
   failed call of its own before that.
   */
  lemma {:induction false} HowTheyEnd(s: State, es: seq<Event>)
    requires Init(s) && Exec(Step, s, es).Some?
    ensures MatchesHistory(Exec(Step, s, es).value, es)
    decreases |es|
  {
    if es != [] {
      var fs, e := es[..|es| - 1], es[|es| - 1];
      assert es == fs + [e];
      HowTheyEnd(s, fs);
      InvRun(s, fs);
      ParentHistory(Exec(Step, s, fs).value, fs, e);
      ChildHistory(Exec(Step, s, fs).value, fs, e);
    }
  }

  // ---------- The semaphores ----------

  predicate ReadFailed(es: seq<Event>) { exists i :: 0 <= i < |es| && es[i].Read? && es[i].n < 0 }

  /** What the operations so far have left of the two semaphores: the parent's last signal goes to 0 if read failed. */
  function Left0(es: seq<Event>): int {
    if es == [] then 1
    else
      var fs, e := es[..|es| - 1], es[|es| - 1];
      Left0(fs) + if e == ParentWait(true) then -1
                  else if e == ChildSignal(true) || (e == ParentSignal(true) && ReadFailed(fs)) then 1 else 0
  }

  function Left1(es: seq<Event>): int {
    if es == [] then 0
    else
      var fs, e := es[..|es| - 1], es[|es| - 1];
      Left1(fs) + if e == ChildWait(true) then -1 else if e == ParentSignal(true) && !ReadFailed(fs) then 1 else 0
  }

  predicate Balanced(t: State, es: seq<Event>) {
    && t.sem0 == Left0(es) && t.sem1 == Left1(es)
    && (t.parent == PError ==> ReadFailed(es)) && (ReadFailed(es) ==> t.parent == PError || Ended(t))
  }

  lemma BalanceStep(t: State, fs: seq<Event>, e: Event)
    requires Enabled(t, e) && Balanced(t, fs)
    ensures Balanced(Apply(t, e), fs + [e])
  {
    var es := fs + [e];
    assert es[..|es| - 1] == fs && es[|es| - 1] == e;
    assert forall i :: 0 <= i < |fs| ==> es[i] == fs[i];
    assert es[|fs|] == e;
  }

  /** The semaphores are what the operations of the two processes have left of 1 and 0. */
  lemma {:induction false} SemaphoresAdd(s: State, es: seq<Event>)
    requires Init(s) && Exec(Step, s, es).Some?
    ensures Balanced(Exec(Step, s, es).value, es)
    decreases |es|
  {
    if es != [] {
      SemaphoresAdd(s, es[..|es| - 1]);
      BalanceStep(Exec(Step, s, es[..|es| - 1]).value, es[..|es| - 1], es[|es| - 1]);
      assert es[..|es| - 1] + [es[|es| - 1]] == es;
    }
  }

  // ---------- Failure-free runs ----------

  /** Behind the end mark the flag is set, and a child that waits has been signalled. */
  predicate Marked(s: State) {
    (Ended(s) || s.parent == PSendEof ==> s.eof) && (Ended(s) && s.child == CWait ==> 0 < s.sem1)
  }

  ghost predicate Calm(s: State) { Inv(s) && Smooth(s) && Marked(s) }

  lemma CalmStep(s: State, e: Event)
    requires Calm(s) && BenignStep(s, e).Some?
    ensures Calm(Apply(s, e))
  {
    InvStep(s, e);
    SmoothStep(s, e);
  }

  lemma CalmRun(s: State, es: seq<Event>)
    requires Init(s) && Exec(BenignStep, s, es).Some?
    ensures Calm(Exec(BenignStep, s, es).value) && Exec(BenignStep, s, es).value.input == s.input
  {
    BenignRun(s, es);
    forall t, e | Calm(t) && BenignStep(t, e).Some? ensures Calm(BenignStep(t, e).value) { CalmStep(t, e); }
    Invariance(BenignStep, (t: State) => Calm(t), s, es);
  }

  /** The child has not failed and does not wait for a semaphore that is gone. */
  predicate ChildIsWell(s: State) { (s.child.CExit? ==> s.child.code == 0) && !(s.removed && s.child == CWait) }

  predicate EndedWell(s: State) { s.parent == PEnd && s.child == CExit(0) && s.output == s.input }

  lemma LostStays(s: State, e: Event)
    requires Calm(s) && BenignStep(s, e).Some? && !ChildIsWell(s)
    ensures !ChildIsWell(Apply(s, e))
  {}

  lemma {:induction false} LostForever(s: State, es: seq<Event>)
    requires Calm(s) && !ChildIsWell(s) && Exec(BenignStep, s, es).Some?
    ensures !ChildIsWell(Exec(BenignStep, s, es).value)
  {
    var inv := (t: State) => Calm(t) && !ChildIsWell(t);
    forall t, e | inv(t) && BenignStep(t, e).Some? ensures inv(BenignStep(t, e).value) {
      CalmStep(t, e);
      LostStays(t, e);
    }
    Invariance(BenignStep, inv, s, es);
  }

  /** A step after which the child is still well: its own if it has one, otherwise one of the parent. */
  lemma WellEvent(s: State) returns (e: Event)
    requires Calm(s) && ChildIsWell(s) && !EndedWell(s)
    ensures BenignStep(s, e).Some? && ChildIsWell(Apply(s, e))
  {
    match s.child
    case CTest => e := ChildTest;
    case CWrite(total, w) => e := if w < total then Write(1) else ChildSignal(true);
    case CEof => e := ChildSignal(!s.removed);
    case CExit(_) =>
      e := if s.parent == PEof then StoreFields else if s.parent == PSendEof then ParentSignal(true) else Remove;
    case CWait =>
      match s.parent {
        case PRead => e := if s.pos < |s.input| then Read(1) else Read(0);
        case PHave(n) => e := StoreFields;
        case PEof => e := StoreFields;
        case PSend => e := ParentSignal(true);
        case PSendEof => e := ParentSignal(true);
        case _ => e := if 0 < s.sem1 then ChildWait(true) else ParentWait(true);
      }
  }

  lemma {:induction false} WellEnds(s: State) returns (es: seq<Event>)
    requires Calm(s) && ChildIsWell(s)
    ensures Exec(BenignStep, s, es).Some? && EndedWell(Exec(BenignStep, s, es).value)
    ensures Exec(BenignStep, s, es).value.input == s.input
    decreases if Remaining(s) < 0 then 0 else Remaining(s)
  {
    if EndedWell(s) {
      es := [];
    } else {
      var e := WellEvent(s);
      var t := Apply(s, e);
      CalmStep(s, e);
      RemainingStep(s, e);
      var fs := WellEnds(t);
      ExecConcat(BenignStep, s, [e], fs);
      es := [e] + fs;
    }
  }

  /**
   After any failure-free run both processes can still end with the file copied and exit code 0 if and only if
   the child has not ended with another code and does not wait for semaphores that were removed.
   */
  lemma EndsWellIff(s: State, es: seq<Event>)
    requires Init(s) && Exec(BenignStep, s, es).Some?
    ensures ChildIsWell(Exec(BenignStep, s, es).value) <==>
              exists fs :: Exec(BenignStep, s, es + fs).Some? && EndedWell(Exec(BenignStep, s, es + fs).value)
  {
    CalmRun(s, es);
    var t := Exec(BenignStep, s, es).value;
    if ChildIsWell(t) {
      var fs := WellEnds(t);
      ExecConcat(BenignStep, s, es, fs);
    } else if fs :| Exec(BenignStep, s, es + fs).Some? && EndedWell(Exec(BenignStep, s, es + fs).value) {
      ExecConcat(BenignStep, s, es, fs);
      LostForever(t, fs);
    }
  }

  lemma EveryCopyCanEndWell(s: State) returns (es: seq<Event>)
    requires Init(s)
    ensures Exec(BenignStep, s, es).Some? && EndedWell(Exec(BenignStep, s, es).value)
  {
    CalmRun(s, []);
    es := WellEnds(s);
  }
}
