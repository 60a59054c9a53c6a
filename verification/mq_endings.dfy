/** How the message-queue copy ends when no call fails: always for the receiver, not always for the sender. */
module MqEndings {
  import opened Runs
  import opened Sequences
  import opened MqTransfer
  import opened MqTruncation

  function HarmlessStep(s: State, e: Event): Option<State> { if Harmless(e) then Step(s, e) else None }

  /** What holds in addition while nothing fails. */
  predicate Smooth(s: State) {
    && !s.sendFailed && s.sender != SFailed && (s.sender == SDone ==> s.eofSent)
    && (s.receiver.RDone? ==> s.receiver.code == 0 && s.eofFlag)
    && (s.eofFlag || s.sender == SFlag ==> s.pos == |s.input|)
    && |s.queue| <= s.capacity
  }

  ghost predicate Calm(s: State) { Inv(s) && Smooth(s) }

  lemma SmoothStep(s: State, e: Event)
    requires Calm(s) && HarmlessStep(s, e).Some?
    ensures Smooth(Apply(s, e))
  {}

  lemma CalmStep(s: State, e: Event)
    requires Calm(s) && HarmlessStep(s, e).Some?
    ensures Calm(Apply(s, e)) && Apply(s, e).input == s.input
  {
    InvStep(s, e);
    SmoothStep(s, e);
    WriteGrows(s, e);
  }

  lemma CalmRun(s: State, es: seq<Event>)
    requires Init(s) && Exec(HarmlessStep, s, es).Some?
    ensures Calm(Exec(HarmlessStep, s, es).value) && Exec(HarmlessStep, s, es).value.input == s.input
  {
    InvRun(s, []);
    var inv := (t: State) => Calm(t) && t.input == s.input;
    forall t, e | inv(t) && HarmlessStep(t, e).Some? ensures inv(HarmlessStep(t, e).value) { CalmStep(t, e); }
    Invariance(HarmlessStep, inv, s, es);
  }

  lemma {:induction false} HarmlessRunIsRun(s: State, es: seq<Event>)
    requires Exec(HarmlessStep, s, es).Some?
    ensures Exec(Step, s, es) == Exec(HarmlessStep, s, es)
    decreases |es|
  {
    if es != [] { HarmlessRunIsRun(s, es[..|es| - 1]); }
  }

  // ---------- Every such run ends ----------

  function SenderWeight(p: Sender): nat {
    match p case SRead => 7 case SSend => 12 case SFlag => 6 case SSendEof => 5 case _ => 0
  }

  function ReceiverWeight(r: Receiver): nat {
    match r case RReceive => 1 case RTest(_, _) => 4 case RWrite(_, _) => 3 case RDone(_, _) => 0
  }

  function Remaining(s: State): int {
    8 * (|s.input| - s.pos) + (s.pos - |s.output|) + SenderWeight(s.sender) + 4 * |s.queue| + ReceiverWeight(s.receiver)
  }

  lemma RemainingStep(s: State, e: Event)
    requires Calm(s) && HarmlessStep(s, e).Some?
    ensures 0 <= Remaining(Apply(s, e)) < Remaining(s)
  {
    CalmStep(s, e);
    var t := Apply(s, e);
    assert |t.output| <= t.pos;
  }

  lemma {:induction false} RunsAreFinite(s: State, es: seq<Event>)
    requires Init(s) && Exec(HarmlessStep, s, es).Some?
    ensures |es| + Remaining(Exec(HarmlessStep, s, es).value) <= Remaining(s) == 8 * |s.input| + 8
    decreases |es|
  {
    if es != [] {
      var fs, e := es[..|es| - 1], es[|es| - 1];
      RunsAreFinite(s, fs);
      CalmRun(s, fs);
      RemainingStep(Exec(HarmlessStep, s, fs).value, e);
    }
  }

  // ---------- And where it ends ----------

  /** Both sides have ended. */
  predicate BothEnded(s: State) { s.sender == SDone && s.receiver.RDone? && s.receiver.code == 0 }

  /** The receiver left early, and the end message does not fit the queue that nobody empties any more. */
  predicate SenderIsStuck(s: State) {
    s.sender == SSendEof && s.receiver == RDone(0, false) && |s.queue| == s.capacity
  }

  lemma QueueFrontFits(s: State)
    requires Inv(s) && s.queue != []
    ensures |s.queue[0]| <= MQ_SIZE
  {
    if s.received < s.sent { QueueFront(s); }
  }

  lemma NextEvent(s: State) returns (e: Event)
    requires Calm(s) && 0 < s.capacity && !BothEnded(s) && !SenderIsStuck(s)
    ensures HarmlessStep(s, e).Some?
  {
    match s.receiver
    case RTest(_, _) => e := Test;
    case RWrite(_, _) => e := Write(1);
    case _ =>
      if s.receiver == RReceive && s.queue != [] {
        QueueFrontFits(s);
        e := Receive(true);
      } else {
        match s.sender {
          case SRead => e := if s.pos < |s.input| then Read(1) else Read(0);
          case SSend => e := Send(true);
          case SFlag => e := SetFlag;
          case _ => e := SendEof(true);
        }
      }
  }

  /**
   A run without failures that cannot go on has ended the receiver with code 0.  The copy is complete exactly
   if the end message ended it; otherwise the sender may be stuck for ever in front of a full queue.
   */
  lemma MaximalRunsEnd(s: State, es: seq<Event>)
    requires Init(s) && 0 < s.capacity && Exec(HarmlessStep, s, es).Some?
    requires forall e :: HarmlessStep(Exec(HarmlessStep, s, es).value, e) == None
    ensures var t := Exec(HarmlessStep, s, es).value;
            && (BothEnded(t) || SenderIsStuck(t))
            && (t.output == s.input <==> t.receiver.byEof) && (t.receiver.byEof ==> BothEnded(t))
  {
    CalmRun(s, es);
    var t := Exec(HarmlessStep, s, es).value;
    CapacityIsFixed(s, es);
    if !BothEnded(t) && !SenderIsStuck(t) {
      var _ := NextEvent(t);
    }
    HarmlessRunIsRun(s, es);
    CompleteIffEndedByEof(s, es);
  }

  lemma CapacityIsFixed(s: State, es: seq<Event>)
    requires Exec(HarmlessStep, s, es).Some?
    ensures Exec(HarmlessStep, s, es).value.capacity == s.capacity
  {
    var inv := (t: State) => t.capacity == s.capacity;
    Invariance(HarmlessStep, inv, s, es);
  }

  /** A file without a dangerous block is copied whole by every run that goes on for as long as it can. */
  lemma SafeFilesAreCopied(s: State, es: seq<Event>)
    requires Init(s) && 0 < s.capacity && Exec(HarmlessStep, s, es).Some?
    requires forall e :: HarmlessStep(Exec(HarmlessStep, s, es).value, e) == None
    requires forall blocks: seq<seq<byte>>, k :: Fits(blocks) && Concat(blocks) == s.input ==>
               !Dangerous(blocks, k, s.capacity)
    ensures var t := Exec(HarmlessStep, s, es).value; BothEnded(t) && t.output == s.input
  {
    MaximalRunsEnd(s, es);
    HarmlessRunIsRun(s, es);
    var t := Exec(Step, s, es).value;
    if t.output != s.input {
      AllHarmless(s, es);
      TruncationIsDangerous(s, es);
      assert false;
    }
  }

  lemma {:induction false} AllHarmless(s: State, es: seq<Event>)
    requires Exec(HarmlessStep, s, es).Some?
    ensures NoFailure(es)
    decreases |es|
  {
    if es != [] {
      AllHarmless(s, es[..|es| - 1]);
      assert es == es[..|es| - 1] + [es[|es| - 1]];
    }
  }

  /** With exactly as many blocks behind the lookalike as the queue holds, the sender gets stuck in some run. */
  lemma SenderCanGetStuck(s: State, blocks: seq<seq<byte>>, k: nat) returns (es: seq<Event>)
    requires Setup(s, blocks) && 0 < s.capacity && Dangerous(blocks, k, s.capacity) && |blocks| - k == s.capacity
    ensures Exec(Step, s, es).Some? && NoFailure(es) && SenderIsStuck(Exec(Step, s, es).value)
  {
    es := DangerousTruncates(s, blocks, k);
    BoundedRun(s, es);
  }

  // ---------- Every run ----------

  predicate Occurs(es: seq<Event>, e: Event) { exists i :: 0 <= i < |es| && es[i] == e }

  predicate ReceiverFailed(es: seq<Event>) {
    exists i :: 0 <= i < |es| && (es[i] == Receive(false) || (es[i].Write? && es[i].n <= 0))
  }

  predicate EndSent(es: seq<Event>) { exists i :: 0 <= i < |es| && es[i].SendEof? }

  lemma OccursAppend(es: seq<Event>, e: Event, x: Event)
    ensures Occurs(es + [e], x) <==> Occurs(es, x) || e == x
    ensures ReceiverFailed(es + [e]) <==> ReceiverFailed(es) || e == Receive(false) || (e.Write? && e.n <= 0)
    ensures EndSent(es + [e]) <==> EndSent(es) || e.SendEof?
  {
    var fs := es + [e];
    assert fs[|es|] == e && forall i :: 0 <= i < |es| ==> fs[i] == es[i];
  }

  /** What of the two loops the history decides. */
  predicate MatchesHistory(t: State, es: seq<Event>) {
    && (t.eofFlag <==> Occurs(es, SetFlag))
    && (t.sender == SFailed <==> Occurs(es, Read(-1)))
    && (t.sendFailed <==> Occurs(es, Send(false)))
    && (t.sender == SDone <==> EndSent(es))
    && (t.receiver.RDone? && t.receiver.code != 0 <==> ReceiverFailed(es))
    && (t.receiver.RDone? ==> t.receiver.code in {0, 1})
    && (t.receiver.RDone? && t.receiver.code == 0 ==> Occurs(es, SetFlag))
  }

  lemma HistoryStep(t: State, fs: seq<Event>, e: Event)
    requires Inv(t) && Enabled(t, e) && MatchesHistory(t, fs)
    ensures MatchesHistory(Apply(t, e), fs + [e])
  {
    OccursAppend(fs, e, SetFlag);
    OccursAppend(fs, e, Read(-1));
    OccursAppend(fs, e, Send(false));
  }

  /**
   In every run: the sender has failed exactly after a failed read, and otherwise sets the flag and sends the
   end message; the receiver exits with 1 exactly after a failed call of its own, and with 0 only if the flag
   was set.  So after a failed read nothing but a failure ends it.
   */
  lemma {:induction false} HowTheyEnd(s: State, es: seq<Event>)
    requires Init(s) && Exec(Step, s, es).Some?
    ensures MatchesHistory(Exec(Step, s, es).value, es)
    ensures Occurs(es, Read(-1)) ==> Exec(Step, s, es).value.receiver.RDone? ==> ReceiverFailed(es)
    decreases |es|
  {
    if es != [] {
      var fs, e := es[..|es| - 1], es[|es| - 1];
      assert es == fs + [e];
      HowTheyEnd(s, fs);
      InvRun(s, fs);
      InvRun(s, es);
      HistoryStep(Exec(Step, s, fs).value, fs, e);
    }
  }
}
