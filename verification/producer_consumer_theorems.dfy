/** What the bounded buffer guarantees over whole runs. */
module ProducerConsumerTheorems {
  import opened Runs
  import opened Sequences
  import opened ProducerConsumer
  import opened ProducerConsumerProofs

  function Woken(pc: ConsumerPc): int { if pc == CWoken then 1 else 0 }

  function WokenProducer(p: Producer): int { if p.pc == PWoken then 1 else 0 }

  /**
   No wakeup is lost: whenever the mutex is free, a sleeping consumer means there are at least as many
   woken consumers as items, a sleeping producer at least as many woken producers as free places; the
   buffer stays within bounds and nothing is duplicated or dropped.
   */
  lemma NoLostWakeup(s: State, es: seq<Event>)
    requires Init(s) && Exec(Next, s, es).Some?
    ensures var t := Exec(Next, s, es).value;
            && 0 <= t.buffer <= t.size && t.produced == t.consumed + t.buffer
            && (t.mutex == None && ConsumerSleeps(t) ==> t.buffer <= Sum(t.consumers, Woken))
            && (t.mutex == None && ProducerSleeps(t) ==> t.size - t.buffer <= Sum(t.producers, WokenProducer))
  {
    InvRun(s, es);
    var t := Exec(Next, s, es).value;
    if t.mutex == None {
      forall i | 0 <= i < |t.consumers|
        ensures ConsumerActive(t.consumers[i]) <= Woken(t.consumers[i]) && ConsumerSignals(t.consumers[i]) == 0
      {
        assert !ConsumerHolds(t.consumers[i]);
      }
      forall i | 0 <= i < |t.producers|
        ensures ProducerActive(t.producers[i]) <= WokenProducer(t.producers[i]) && ProducerSignals(t.producers[i]) == 0
      {
        assert !ProducerHolds(t.producers[i].pc);
      }
      SumMonotone(t.consumers, ConsumerActive, Woken);
      SumMonotone(t.producers, ProducerActive, WokenProducer);
      SumZero(t.consumers, ConsumerSignals);
      SumZero(t.producers, ProducerSignals);
    }
  }

  /** The mutex excludes: at most one thread is between lock and unlock. */
  lemma MutualExclusion(s: State, es: seq<Event>, i: nat, j: nat)
    requires Init(s) && Exec(Next, s, es).Some?
    ensures var t := Exec(Next, s, es).value;
            && (i < j < |t.producers| ==> !(ProducerHolds(t.producers[i].pc) && ProducerHolds(t.producers[j].pc)))
            && (i < j < |t.consumers| ==> !(ConsumerHolds(t.consumers[i]) && ConsumerHolds(t.consumers[j])))
            && (i < |t.producers| && j < |t.consumers| ==>
                  !(ProducerHolds(t.producers[i].pc) && ConsumerHolds(t.consumers[j])))
  {
    InvRun(s, es);
  }

  /** Main stops the program only behind the last producer, so none of them ever finds it stopped. */
  lemma ProducersNeverSeeTheStop(s: State, es: seq<Event>, i: nat)
    requires Init(s) && Exec(Next, s, es).Some? && i < |Exec(Next, s, es).value.producers|
    ensures var t := Exec(Next, s, es).value; t.producers[i].pc != PQuit && (t.producers[i].pc != PDone ==> t.running)
    ensures var t := Exec(Next, s, es).value; t.producers[i].pc == PDone ==> t.producers[i].count == t.limit
  {
    InvRun(s, es);
    var t := Exec(Next, s, es).value;
    assert ProducerFits(t, t.producers[i]);
  }

  // ---------- Every run without spurious wakeups ends ----------

  predicate Drained(s: State) { !s.running && s.buffer == 0 }

  function ProducerPcWeight(pc: ProducerPc): int {
    match pc
    case PDone => 0 case PQuit => 1 case PWaiting => 1 case PProduce => 2 case PCheck => 3 case PTest => 4
    case PWoken => 5 case PLock => 5 case PTop => 6 case PUnlock => 7 case PSignal => 13
  }

  /** 23 for each item still to be produced, and the rest of the current round. */
  function ProducerWeight(limit: int): Producer -> int {
    (p: Producer) => 23 * (limit - p.count) + ProducerPcWeight(p.pc)
  }

  function ConsumerPcWeight(pc: ConsumerPc, drained: bool): int {
    match pc
    case CDone => 0 case CWaiting => 1 case CCheck => 4 case CTest => 5 case CWoken => 6 case CLock => 6
    case CTopBuffer => if drained then 1 else 7
    case CTop => if drained then 2 else 8
    case CUnlock => if drained then 3 else 9
    case CSignal => if drained then 8 else 14
  }

  function ConsumerWeight(drained: bool): ConsumerPc -> int {
    (pc: ConsumerPc) => ConsumerPcWeight(pc, drained)
  }

  function MainWeight(s: State): int {
    match s.main
    case JoinProducers(i) => |s.producers| - i + |s.consumers| + 3
    case Stop => |s.consumers| + 2
    case JoinConsumers(i) => |s.consumers| - i + 1
    case MainDone => 0
  }

  function ConsumersWeight(s: State): int { Sum(s.consumers, ConsumerWeight(Drained(s))) }

  function ProducersWeight(s: State): int { Sum(s.producers, ProducerWeight(s.limit)) }

  /** An upper bound on the number of steps still to come. */
  function Remaining(s: State): int {
    ProducersWeight(s) + 11 * s.buffer + ConsumersWeight(s) + MainWeight(s)
  }

  lemma ConsumersUpdate(s: State, t: State, i: nat)
    requires i < |s.consumers| == |t.consumers| && t.consumers == s.consumers[i := t.consumers[i]]
    requires Drained(s) ==> Drained(t)
    ensures ConsumersWeight(t) <= ConsumersWeight(s) - ConsumerPcWeight(s.consumers[i], Drained(s))
                                  + ConsumerPcWeight(t.consumers[i], Drained(t))
  {
    SumMonotone(s.consumers, ConsumerWeight(Drained(t)), ConsumerWeight(Drained(s)));
    SumUpdate(s.consumers, i, t.consumers[i], ConsumerWeight(Drained(t)));
    if Drained(t) && !Drained(s) {
      var s' := s.consumers[i := CWaiting];
      SumMonotone(s', ConsumerWeight(true), ConsumerWeight(false));
      SumUpdate(s.consumers, i, CWaiting, ConsumerWeight(true));
      SumUpdate(s.consumers, i, CWaiting, ConsumerWeight(false));
    }
  }

  lemma RemainingProducerAlone(s: State, i: nat)
    requires ProducerEnabled(s, i, None) && ProducerFits(s, s.producers[i]) && s.running
    ensures Remaining(ProducerStep(s, i, None)) < Remaining(s)
  {
    var t := ProducerStep(s, i, None);
    assert t.consumers == s.consumers && t.main == s.main;
    SumUpdate(s.producers, i, t.producers[i], ProducerWeight(s.limit));
  }

  lemma RemainingProducerWakes(s: State, i: nat, j: nat)
    requires ProducerEnabled(s, i, Some(j)) && ProducerFits(s, s.producers[i]) && s.running
    ensures Remaining(ProducerStep(s, i, Some(j))) < Remaining(s)
  {
    var t := ProducerStep(s, i, Some(j));
    SumUpdate(s.producers, i, t.producers[i], ProducerWeight(s.limit));
    SumUpdate(s.consumers, j, CWoken, ConsumerWeight(false));
  }

  lemma RemainingProducer(s: State, i: nat, w: Option<nat>)
    requires Shape(s) && ProducerEnabled(s, i, w)
    ensures Remaining(ProducerStep(s, i, w)) < Remaining(s)
  {
    assert ProducerFits(s, s.producers[i]);
    assert s.running;
    match w
    case Some(j) => RemainingProducerWakes(s, i, j);
    case None => RemainingProducerAlone(s, i);
  }

  lemma RemainingConsumerAlone(s: State, i: nat)
    requires ConsumerEnabled(s, i, None) && ConsumerFits(s, s.consumers[i]) && 0 <= s.buffer
    ensures Remaining(ConsumerStep(s, i, None)) < Remaining(s)
  {
    var t := ConsumerStep(s, i, None);
    assert t.producers == s.producers && t.main == s.main;
    ConsumersUpdate(s, t, i);
  }

  lemma RemainingConsumerWakes(s: State, i: nat, j: nat)
    requires ConsumerEnabled(s, i, Some(j)) && ConsumerFits(s, s.consumers[i])
    ensures Remaining(ConsumerStep(s, i, Some(j))) < Remaining(s)
  {
    var t := ConsumerStep(s, i, Some(j));
    ConsumersUpdate(s, t, i);
    SumUpdate(s.producers, j, t.producers[j], ProducerWeight(s.limit));
  }

  lemma RemainingConsumer(s: State, i: nat, w: Option<nat>)
    requires Shape(s) && ConsumerEnabled(s, i, w)
    ensures Remaining(ConsumerStep(s, i, w)) < Remaining(s)
  {
    assert ConsumerFits(s, s.consumers[i]);
    match w
    case Some(j) => RemainingConsumerWakes(s, i, j);
    case None => RemainingConsumerAlone(s, i);
  }

  lemma RemainingMain(s: State)
    requires Shape(s) && MainEnabled(s)
    ensures Remaining(AfterMain(s)) < Remaining(s)
  {
    SumMonotone(s.consumers, ConsumerWeight(Drained(AfterMain(s))), ConsumerWeight(Drained(s)));
  }

  lemma RemainingStep(s: State, e: Event)
    requires Shape(s) && Enabled(s, e) && !e.Spurious?
    ensures Remaining(Apply(s, e)) < Remaining(s)
  {
    match e
    case Step(P(i), w) => RemainingProducer(s, i, w);
    case Step(C(i), w) => RemainingConsumer(s, i, w);
    case MainStep => RemainingMain(s);
  }

  lemma RemainingNonNegative(s: State)
    requires Shape(s)
    ensures 0 <= Remaining(s)
  {
    forall i | 0 <= i < |s.producers| ensures 0 <= ProducerWeight(s.limit)(s.producers[i]) {
      assert ProducerFits(s, s.producers[i]);
    }
    SumZero(s.producers, ProducerWeight(s.limit));
    SumZero(s.consumers, ConsumerWeight(Drained(s)));
  }

  predicate NoSpurious(es: seq<Event>) { forall e :: e in es ==> !e.Spurious? }

  /** Without spurious wakeups no run is longer than the weight of its first state. */
  lemma {:induction false} RunsAreFinite(s: State, es: seq<Event>)
    requires Init(s) && Exec(Next, s, es).Some? && NoSpurious(es)
    ensures |es| + Remaining(Exec(Next, s, es).value) <= Remaining(s)
    ensures |es| <= Remaining(s)
    decreases |es|
  {
    InvRun(s, es);
    RemainingNonNegative(Exec(Next, s, es).value);
    if es != [] {
      var fs, e := es[..|es| - 1], es[|es| - 1];
      RunsAreFinite(s, fs);
      InvRun(s, fs);
      RemainingStep(Exec(Next, s, fs).value, e);
    }
  }

  // ---------- And loses nothing ----------

  /** All items made and taken; main has passed its last join, or waits for a consumer that sleeps. */
  predicate Finished(s: State) {
    && Joined(s, |s.producers|) && !s.running && s.buffer == 0 && s.produced == s.consumed
    && (s.main == MainDone
        || (s.main.JoinConsumers? && s.main.i < |s.consumers| && s.consumers[s.main.i] == CWaiting))
  }

  predicate Blocked(s: State) {
    && (forall i :: 0 <= i < |s.producers| ==> s.producers[i].pc == PWaiting || s.producers[i].pc == PDone)
    && (forall i :: 0 <= i < |s.consumers| ==> s.consumers[i] == CWaiting || s.consumers[i] == CDone)
  }

  lemma ProducerCanStep(s: State, i: nat) returns (e: Event)
    requires Exclusion(s) && i < |s.producers| && s.producers[i].pc != PWaiting && s.producers[i].pc != PDone
    requires s.mutex == None || s.mutex == Some(P(i))
    ensures Enabled(s, e) && e.Step? && e.t == P(i)
  {
    assert ProducerHolds(s.producers[i].pc) <==> s.mutex == Some(P(i));
    var w: Option<nat> := None;
    if s.producers[i].pc == PSignal && CWaiting in s.consumers {
      var j: nat :| j < |s.consumers| && s.consumers[j] == CWaiting;
      w := Some(j);
    }
    e := Step(P(i), w);
  }

  lemma ConsumerCanStep(s: State, i: nat) returns (e: Event)
    requires Exclusion(s) && i < |s.consumers| && s.consumers[i] != CWaiting && s.consumers[i] != CDone
    requires s.mutex == None || s.mutex == Some(C(i))
    ensures Enabled(s, e) && e.Step? && e.t == C(i)
  {
    assert ConsumerHolds(s.consumers[i]) <==> s.mutex == Some(C(i));
    var w: Option<nat> := None;
    if s.consumers[i] == CSignal && ProducerSleeps(s) {
      var j: nat :| j < |s.producers| && s.producers[j].pc == PWaiting;
      w := Some(j);
    }
    e := Step(C(i), w);
  }

  /** Unfinished producers and consumers never all sleep at once. */
  lemma NotAllAsleep(s: State)
    requires Inv(s) && Blocked(s) && 0 < s.size && 0 < |s.consumers|
    ensures Joined(s, |s.producers|)
    ensures !s.running ==> s.buffer == 0
  {
    forall i | 0 <= i < |s.producers| ensures ProducerActive(s.producers[i]) == ProducerSignals(s.producers[i]) == 0 {}
    SumZero(s.producers, ProducerActive);
    SumZero(s.producers, ProducerSignals);
    SumZero(s.consumers, ConsumerActive);
    SumZero(s.consumers, ConsumerSignals);
    assert s.consumers[0] == CWaiting || s.consumers[0] == CDone;
    assert ConsumerFits(s, s.consumers[0]);
  }

  lemma BlockedEvent(s: State) returns (e: Event)
    requires Inv(s) && Blocked(s) && 0 < s.size && 0 < |s.consumers| && !Finished(s)
    ensures Enabled(s, e) && !e.Spurious?
  {
    NotAllAsleep(s);
    e := MainStep;
  }

  /** Until everything is produced and consumed some thread can step without a spurious wakeup. */
  lemma NextEvent(s: State) returns (e: Event)
    requires Inv(s) && 0 < s.size && 0 < |s.consumers| && !Finished(s)
    ensures Enabled(s, e) && !e.Spurious?
  {
    if s.mutex.Some? {
      match s.mutex.value
      case P(i) => e := ProducerCanStep(s, i);
      case C(i) => e := ConsumerCanStep(s, i);
    } else if i: nat :| i < |s.producers| && s.producers[i].pc != PWaiting && s.producers[i].pc != PDone {
      e := ProducerCanStep(s, i);
    } else if i: nat :| i < |s.consumers| && s.consumers[i] != CWaiting && s.consumers[i] != CDone {
      e := ConsumerCanStep(s, i);
    } else {
      e := BlockedEvent(s);
    }
  }

  lemma {:induction false} SumOfEqual(ps: seq<Producer>, limit: nat)
    requires forall i :: 0 <= i < |ps| ==> ps[i].count == limit
    ensures Sum(ps, CountOf) == |ps| * limit
  {
    if ps != [] { SumOfEqual(ps[1..], limit); }
  }

  lemma Total(s: State)
    requires Shape(s) && Conserved(s) && Joined(s, |s.producers|)
    ensures s.produced == |s.producers| * s.limit
  {
    forall i | 0 <= i < |s.producers| ensures s.producers[i].count == s.limit {
      assert ProducerFits(s, s.producers[i]);
    }
    SumOfEqual(s.producers, s.limit);
  }

  predicate SameSetup(s: State, t: State) {
    t.size == s.size && t.limit == s.limit && |t.producers| == |s.producers| && |t.consumers| == |s.consumers|
  }

  lemma SetupStep(s: State, t: State, e: Event)
    requires SameSetup(s, t) && Enabled(t, e)
    ensures SameSetup(s, Apply(t, e))
  {}

  lemma SetupIsFixed(s: State, es: seq<Event>)
    requires Exec(Next, s, es).Some?
    ensures SameSetup(s, Exec(Next, s, es).value)
  {
    forall t, e | SameSetup(s, t) && Next(t, e).Some? ensures SameSetup(s, Next(t, e).value) { SetupStep(s, t, e); }
    Invariance(Next, (t: State) => SameSetup(s, t), s, es);
  }

  /** As long as some producer is unfinished, the unfinished producers and the consumers never all sleep. */
  lemma NeverAllAsleep(s: State, es: seq<Event>)
    requires Init(s) && Exec(Next, s, es).Some? && 0 < s.size && 0 < |s.consumers|
    requires !Joined(Exec(Next, s, es).value, |s.producers|)
    ensures !Blocked(Exec(Next, s, es).value)
  {
    InvRun(s, es);
    SetupIsFixed(s, es);
    var t := Exec(Next, s, es).value;
    if Blocked(t) { NotAllAsleep(t); }
  }

  /**
   A run after which nothing but a spurious wakeup can happen has produced and consumed every item, even
   when main is left waiting for a sleeping consumer.
   */
  lemma MaximalRunsConsumeEverything(s: State, es: seq<Event>)
    requires Init(s) && Exec(Next, s, es).Some? && 0 < s.size && 0 < |s.consumers|
    requires forall e :: Next(Exec(Next, s, es).value, e).Some? ==> e.Spurious?
    ensures var t := Exec(Next, s, es).value;
            Finished(t) && t.consumed == t.produced == |s.producers| * s.limit
  {
    InvRun(s, es);
    SetupIsFixed(s, es);
    var t := Exec(Next, s, es).value;
    if !Finished(t) {
      var e := NextEvent(t);
      var u := Next(t, e);
    }
    Total(t);
  }

  /** When main has passed its last join the buffer is empty and all items were consumed. */
  lemma MainDoneMeansAllConsumed(s: State, es: seq<Event>)
    requires Init(s) && 0 < |s.consumers| && Exec(Next, s, es).Some? && Exec(Next, s, es).value.main == MainDone
    ensures var t := Exec(Next, s, es).value;
            t.buffer == 0 && t.consumed == t.produced == |s.producers| * s.limit
  {
    InvRun(s, es);
    SetupIsFixed(s, es);
    var t := Exec(Next, s, es).value;
    assert ConsumerFits(t, t.consumers[0]);
    Total(t);
  }
}
