/**
 Whether the program of producer_consumer.dfy can still end.  Nothing wakes the consumers when main stops the
 program, so each consumer that sleeps needs one of the signals that producers have still to send.
 */
module ProducerConsumerEndings {
  import opened Runs
  import opened Sequences
  import opened ProducerConsumer
  import opened ProducerConsumerProofs
  import opened ProducerConsumerTheorems

  function Sleeping(pc: ConsumerPc): int { if pc == CWaiting then 1 else 0 }

  function Asleep(s: State): int { Sum(s.consumers, Sleeping) }

  /** The signals a producer has still to send: one for each item it has not made, and the one it is about to send. */
  function ToSend(limit: int): Producer -> int {
    (p: Producer) => limit - p.count + if p.pc == PSignal then 1 else 0
  }

  function Pending(s: State): int { Sum(s.producers, ToSend(s.limit)) }

  /** A consumer that holds the mutex in front of an empty buffer and will sleep before anyone can prevent it. */
  predicate AboutToSleep(s: State) {
    && s.mutex.Some? && s.mutex.value.C? && s.mutex.value.i < |s.consumers| && s.consumers[s.mutex.value.i] == CTest
    && s.buffer == 0 && s.running && 0 < Pending(s)
  }

  function Sleepers(s: State): int { Asleep(s) + if AboutToSleep(s) then 1 else 0 }

  /** Every sleeper can still be woken by a signal of its own. */
  predicate CanWakeAll(s: State) { Sleepers(s) <= Pending(s) }

  // ---------- Counting ----------

  lemma PendingUpdate(s: State, i: nat, p: Producer)
    requires i < |s.producers|
    ensures Sum(s.producers[i := p], ToSend(s.limit)) ==
            Pending(s) - ToSend(s.limit)(s.producers[i]) + ToSend(s.limit)(p)
  {
    SumUpdate(s.producers, i, p, ToSend(s.limit));
  }

  lemma AsleepUpdate(s: State, i: nat, pc: ConsumerPc)
    requires i < |s.consumers|
    ensures Sum(s.consumers[i := pc], Sleeping) == Asleep(s) - Sleeping(s.consumers[i]) + Sleeping(pc)
  {
    SumUpdate(s.consumers, i, pc, Sleeping);
  }

  /** Neither sum is negative; no signal is pending exactly if every producer has made all its items and sent them. */
  lemma CountsMean(s: State)
    requires Shape(s)
    ensures 0 <= Pending(s) && 0 <= Asleep(s)
    ensures Pending(s) == 0 <==>
              forall i :: 0 <= i < |s.producers| ==> s.producers[i].count == s.limit && s.producers[i].pc != PSignal
    ensures Asleep(s) == 0 <==> CWaiting !in s.consumers
  {
    forall i | 0 <= i < |s.producers| ensures 0 <= ToSend(s.limit)(s.producers[i]) {
      assert ProducerFits(s, s.producers[i]);
    }
    SumZero(s.producers, ToSend(s.limit));
    SumZero(s.consumers, Sleeping);
    AllShown(s);
  }

  lemma AllShown(s: State)
    requires Shape(s)
    ensures (forall i :: 0 <= i < |s.producers| ==> ToSend(s.limit)(s.producers[i]) == 0) <==>
              forall i :: 0 <= i < |s.producers| ==> s.producers[i].count == s.limit && s.producers[i].pc != PSignal
  {
    forall i | 0 <= i < |s.producers|
      ensures ToSend(s.limit)(s.producers[i]) == 0 <==>
                s.producers[i].count == s.limit && s.producers[i].pc != PSignal
    {
      assert ProducerFits(s, s.producers[i]);
    }
  }

  lemma PendingPositive(s: State, i: nat)
    requires Shape(s) && i < |s.producers| && s.producers[i].pc == PSignal
    ensures 0 < Pending(s)
  {
    CountsMean(s);
  }

  lemma JoinedMeansNothingPending(s: State)
    requires Shape(s) && Joined(s, |s.producers|)
    ensures Pending(s) == 0
  {
    forall i | 0 <= i < |s.producers| ensures s.producers[i].count == s.limit && s.producers[i].pc != PSignal {
      assert ProducerFits(s, s.producers[i]);
    }
    CountsMean(s);
  }

  // ---------- What a step does to the balance ----------

  lemma ProducerBalance(s: State, i: nat, w: Option<nat>)
    requires Inv(s) && ProducerEnabled(s, i, w)
    ensures CanWakeAll(s) <==> CanWakeAll(ProducerStep(s, i, w))
  {
    var t := ProducerStep(s, i, w);
    PendingUpdate(s, i, t.producers[i]);
    CountsMean(s);
    assert ProducerFits(s, s.producers[i]);
    assert ProducerHolds(s.producers[i].pc) <==> s.mutex == Some(P(i));
    if s.producers[i].pc == PSignal {
      PendingPositive(s, i);
      if w.Some? { AsleepUpdate(s, w.value, CWoken); }
    }
  }

  /** The step after which a consumer sleeps, or can no longer avoid it. */
  predicate TurnsIn(s: State, i: nat) {
    && i < |s.consumers| && s.buffer == 0 && s.running
    && (if 0 < Pending(s) then s.consumers[i] == CLock || s.consumers[i] == CWoken else s.consumers[i] == CTest)
  }

  lemma ConsumerBalance(s: State, i: nat, w: Option<nat>)
    requires Inv(s) && ConsumerEnabled(s, i, w)
    ensures !TurnsIn(s, i) ==> (CanWakeAll(s) <==> CanWakeAll(ConsumerStep(s, i, w)))
    ensures !CanWakeAll(s) ==> !CanWakeAll(ConsumerStep(s, i, w))
  {
    var t := ConsumerStep(s, i, w);
    AsleepUpdate(s, i, t.consumers[i]);
    CountsMean(s);
    assert ConsumerHolds(s.consumers[i]) <==> s.mutex == Some(C(i));
    if w.Some? { PendingUpdate(s, w.value, t.producers[w.value]); }
  }

  lemma MainBalance(s: State)
    requires Inv(s) && MainEnabled(s)
    ensures CanWakeAll(s) <==> CanWakeAll(AfterMain(s))
  {
    if s.main == Stop { JoinedMeansNothingPending(s); }
  }

  lemma BalanceStep(s: State, e: Event)
    requires Inv(s) && Enabled(s, e) && !e.Spurious? && !CanWakeAll(s)
    ensures !CanWakeAll(Apply(s, e))
  {
    match e
    case Step(P(i), w) => ProducerBalance(s, i, w);
    case Step(C(i), w) => ConsumerBalance(s, i, w);
    case MainStep => MainBalance(s);
  }

  // ---------- Too many sleepers ----------

  lemma {:induction false} StaysUnbalanced(s: State, es: seq<Event>)
    requires Inv(s) && !CanWakeAll(s) && Exec(Next, s, es).Some? && NoSpurious(es)
    ensures var t := Exec(Next, s, es).value; Inv(t) && !CanWakeAll(t)
    decreases |es|
  {
    if es != [] {
      var fs, e := es[..|es| - 1], es[|es| - 1];
      StaysUnbalanced(s, fs);
      BalanceStep(Exec(Next, s, fs).value, e);
      InvStep(Exec(Next, s, fs).value, e);
    }
  }

  lemma DoneIsBalanced(s: State)
    requires Inv(s) && s.main == MainDone
    ensures CanWakeAll(s)
  {
    JoinedMeansNothingPending(s);
    CountsMean(s);
  }

  // ---------- Few enough sleepers ----------

  /** A step of the producer i that keeps the balance. */
  lemma ProducerMove(s: State, i: nat) returns (e: Event)
    requires Inv(s) && CanWakeAll(s) && i < |s.producers|
    requires s.producers[i].pc != PWaiting && s.producers[i].pc != PDone
    requires s.mutex == None || s.mutex == Some(P(i)) || s.producers[i].pc == PTop
    ensures Enabled(s, e) && !e.Spurious? && CanWakeAll(Apply(s, e))
  {
    if s.producers[i].pc == PTop && s.mutex != None && s.mutex != Some(P(i)) {
      e := Step(P(i), None);
    } else {
      e := ProducerCanStep(s, i);
    }
    ProducerBalance(s, i, e.woken);
  }

  lemma ConsumerMove(s: State, i: nat) returns (e: Event)
    requires Inv(s) && CanWakeAll(s) && i < |s.consumers| && s.consumers[i] != CWaiting && s.consumers[i] != CDone
    requires (s.mutex == None || s.mutex == Some(C(i))) && !TurnsIn(s, i)
    ensures Enabled(s, e) && !e.Spurious? && CanWakeAll(Apply(s, e))
  {
    e := ConsumerCanStep(s, i);
    ConsumerBalance(s, i, e.woken);
  }

  /** All producers have finished: main goes on, and once it has stopped the program so do the consumers. */
  lemma JoinedMove(s: State) returns (e: Event)
    requires Inv(s) && CanWakeAll(s) && Joined(s, |s.producers|) && s.main != MainDone
    ensures Enabled(s, e) && !e.Spurious? && CanWakeAll(Apply(s, e))
  {
    JoinedMeansNothingPending(s);
    CountsMean(s);
    if s.running || forall i :: 0 <= i < |s.consumers| ==> s.consumers[i] == CDone {
      e := MainStep;
      MainBalance(s);
    } else {
      var i: nat :| i < |s.consumers| && s.consumers[i] != CDone;
      if s.mutex == None {
        e := ConsumerMove(s, i);
      } else {
        e := HolderMove(s);
      }
    }
  }

  /** The consumer that holds the mutex goes on, as long as it does not fall asleep without need. */
  lemma HolderMove(s: State) returns (e: Event)
    requires Inv(s) && CanWakeAll(s) && s.mutex.Some? && (Joined(s, |s.producers|) ==> !s.running)
    requires s.mutex.value.C? ==> !TurnsIn(s, s.mutex.value.i)
    ensures Enabled(s, e) && !e.Spurious? && CanWakeAll(Apply(s, e))
  {
    match s.mutex.value
    case P(i) =>
      assert ProducerHolds(s.producers[i].pc);
      e := ProducerMove(s, i);
    case C(i) =>
      assert ConsumerHolds(s.consumers[i]);
      e := ConsumerMove(s, i);
  }

  /** A consumer stands in front of an empty buffer and no item is to come: the producers leave their loops first. */
  lemma LeaveMove(s: State, c: nat) returns (e: Event)
    requires Inv(s) && CanWakeAll(s) && !Joined(s, |s.producers|) && s.mutex == Some(C(c)) && Pending(s) == 0
    ensures Enabled(s, e) && !e.Spurious? && CanWakeAll(Apply(s, e))
  {
    CountsMean(s);
    var i: nat :| i < |s.producers| && s.producers[i].pc != PDone;
    assert ProducerFits(s, s.producers[i]);
    assert ProducerHolds(s.producers[i].pc) <==> s.mutex == Some(P(i));
    e := ProducerMove(s, i);
  }

  /** With items in the buffer and no signal on its way, some consumer does not sleep. */
  lemma AwakeConsumer(s: State) returns (i: nat)
    requires Inv(s) && 0 < s.buffer && 0 < |s.consumers| && Sum(s.producers, ProducerSignals) == 0
    ensures i < |s.consumers| && s.consumers[i] != CWaiting
  {
    SumZero(s.consumers, ConsumerActive);
    assert s.consumers[0] == CWaiting ==> ConsumerSleeps(s);
    i :| i < |s.consumers| && s.consumers[i] != CWaiting;
  }

  /** Nobody holds the mutex and every unfinished producer sleeps: the buffer is full and some consumer is awake. */
  lemma FullMove(s: State) returns (e: Event)
    requires Inv(s) && CanWakeAll(s) && s.mutex == None && 0 < s.size && 0 < |s.consumers|
    requires !Joined(s, |s.producers|)
    requires forall i :: 0 <= i < |s.producers| ==> s.producers[i].pc == PWaiting || s.producers[i].pc == PDone
    ensures Enabled(s, e) && !e.Spurious? && CanWakeAll(Apply(s, e))
  {
    forall i | 0 <= i < |s.producers| ensures ProducerActive(s.producers[i]) == ProducerSignals(s.producers[i]) == 0 {}
    SumZero(s.producers, ProducerActive);
    SumZero(s.producers, ProducerSignals);
    forall i | 0 <= i < |s.consumers| ensures ConsumerSignals(s.consumers[i]) == 0 {
      assert !ConsumerHolds(s.consumers[i]);
    }
    SumZero(s.consumers, ConsumerSignals);
    assert ProducerSleeps(s) && 0 < s.buffer && s.running;
    var i := AwakeConsumer(s);
    assert ConsumerFits(s, s.consumers[i]);
    e := ConsumerMove(s, i);
  }

  /** While the sleepers can be woken there is a step that keeps it so. */
  lemma BalancedEvent(s: State) returns (e: Event)
    requires Inv(s) && CanWakeAll(s) && 0 < s.size && 0 < |s.consumers| && s.main != MainDone
    ensures Enabled(s, e) && !e.Spurious? && CanWakeAll(Apply(s, e))
  {
    if Joined(s, |s.producers|) {
      e := JoinedMove(s);
    } else if s.mutex.Some? && s.mutex.value.C? && TurnsIn(s, s.mutex.value.i) {
      CountsMean(s);
      assert ConsumerHolds(s.consumers[s.mutex.value.i]);
      e := LeaveMove(s, s.mutex.value.i);
    } else if s.mutex.Some? {
      e := HolderMove(s);
    } else if i: nat :| i < |s.producers| && s.producers[i].pc != PWaiting && s.producers[i].pc != PDone {
      e := ProducerMove(s, i);
    } else {
      e := FullMove(s);
    }
  }

  lemma {:induction false} BalancedEnds(s: State) returns (es: seq<Event>)
    requires Inv(s) && CanWakeAll(s) && 0 < s.size && 0 < |s.consumers|
    ensures Exec(Next, s, es).Some? && NoSpurious(es) && Exec(Next, s, es).value.main == MainDone
    decreases Remaining(s)
  {
    if s.main == MainDone {
      es := [];
    } else {
      var e := BalancedEvent(s);
      var t := Apply(s, e);
      InvStep(s, e);
      RemainingStep(s, e);
      RemainingNonNegative(s);
      RemainingNonNegative(t);
      SetupStep(s, s, e);
      var fs := BalancedEnds(t);
      ExecConcat(Next, s, [e], fs);
      es := [e] + fs;
    }
  }

  // ---------- Main results ----------

  /**
   After any run main can still get past its last join, without spurious wakeups, if and only if there are no
   more sleeping consumers than signals still to be sent.
   */
  lemma CanEndIff(s: State, es: seq<Event>)
    requires Init(s) && Exec(Next, s, es).Some? && 0 < s.size && 0 < |s.consumers|
    ensures CanWakeAll(Exec(Next, s, es).value) <==>
              exists fs :: NoSpurious(fs) && Exec(Next, s, es + fs).Some?
                           && Exec(Next, s, es + fs).value.main == MainDone
  {
    InvRun(s, es);
    SetupIsFixed(s, es);
    var t := Exec(Next, s, es).value;
    if CanWakeAll(t) {
      var fs := BalancedEnds(t);
      ExecConcat(Next, s, es, fs);
    } else if fs :| NoSpurious(fs) && Exec(Next, s, es + fs).Some? && Exec(Next, s, es + fs).value.main == MainDone {
      ExecConcat(Next, s, es, fs);
      StaysUnbalanced(t, fs);
      DoneIsBalanced(Exec(Next, t, fs).value);
    }
  }

  /** So every program can end, with every item consumed. */
  lemma EveryProgramCanEnd(s: State) returns (es: seq<Event>)
    requires Init(s) && 0 < s.size && 0 < |s.consumers|
    ensures Exec(Next, s, es).Some? && NoSpurious(es)
    ensures var t := Exec(Next, s, es).value;
            t.main == MainDone && t.buffer == 0 && t.consumed == t.produced == |s.producers| * s.limit
  {
    InvInit(s);
    CountsMean(s);
    es := BalancedEnds(s);
    MainDoneMeansAllConsumed(s, es);
  }

  /** The threads go on alone, before main stops the program, until all of them have finished or sleep. */
  lemma {:induction false} ThreadsAlone(s: State) returns (es: seq<Event>)
    requires Inv(s) && s.running && 0 < s.size && 0 < |s.consumers|
    ensures Exec(Next, s, es).Some? && NoSpurious(es)
    ensures var t := Exec(Next, s, es).value;
            Inv(t) && Blocked(t) && t.running && 0 < t.size && 0 < |t.consumers|
    decreases Remaining(s)
  {
    if Blocked(s) {
      es := [];
    } else {
      var e := ThreadEvent(s);
      var t := Apply(s, e);
      InvStep(s, e);
      RemainingStep(s, e);
      RemainingNonNegative(s);
      RemainingNonNegative(t);
      SetupStep(s, s, e);
      var fs := ThreadsAlone(t);
      ExecConcat(Next, s, [e], fs);
      es := [e] + fs;
    }
  }

  lemma ThreadEvent(s: State) returns (e: Event)
    requires Inv(s) && !Blocked(s)
    ensures Enabled(s, e) && e.Step?
  {
    if s.mutex.Some? {
      match s.mutex.value
      case P(i) => e := ProducerCanStep(s, i);
      case C(i) => e := ConsumerCanStep(s, i);
    } else if i: nat :| i < |s.producers| && s.producers[i].pc != PWaiting && s.producers[i].pc != PDone {
      e := ProducerCanStep(s, i);
    } else {
      var i: nat :| i < |s.consumers| && s.consumers[i] != CWaiting && s.consumers[i] != CDone;
      e := ConsumerCanStep(s, i);
    }
  }

  /** And every program can get into a state from which only a spurious wakeup would let it end. */
  lemma EveryProgramCanHang(s: State) returns (es: seq<Event>)
    requires Init(s) && 0 < s.size && 0 < |s.consumers|
    ensures Exec(Next, s, es).Some? && NoSpurious(es)
    ensures forall fs :: NoSpurious(fs) && Exec(Next, s, es + fs).Some? ==>
              Exec(Next, s, es + fs).value.main != MainDone
  {
    InvInit(s);
    es := ThreadsAlone(s);
    var t := Exec(Next, s, es).value;
    NotAllAsleep(t);
    JoinedMeansNothingPending(t);
    CountsMean(t);
    assert ConsumerFits(t, t.consumers[0]);
    assert CWaiting in t.consumers;
    forall fs | NoSpurious(fs) && Exec(Next, s, es + fs).Some? ensures Exec(Next, s, es + fs).value.main != MainDone {
      ExecConcat(Next, s, es, fs);
      StaysUnbalanced(t, fs);
      if Exec(Next, t, fs).value.main == MainDone { DoneIsBalanced(Exec(Next, t, fs).value); }
    }
  }
}
