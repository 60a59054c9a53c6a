/**
 The two critical sections as they are written, over the shared counters: from taking the mutex to
 giving it back, by waiting or by unlocking.  Each is proved to be a run of ProducerConsumer's events.
 */
module Monitor {
  import opened Runs
  import opened ProducerConsumer

  lemma ProducerThen(s: State, es: seq<Event>, t: State, i: nat, w: Option<nat>, u: State)
    requires Exec(Next, s, es) == Some(t) && ProducerEnabled(t, i, w) && u == ProducerStep(t, i, w)
    ensures Exec(Next, s, es + [Step(P(i), w)]) == Some(u)
  {
    ExecExtend(Next, s, es, t, Step(P(i), w), u);
  }

  lemma ConsumerThen(s: State, es: seq<Event>, t: State, i: nat, w: Option<nat>, u: State)
    requires Exec(Next, s, es) == Some(t) && ConsumerEnabled(t, i, w) && u == ConsumerStep(t, i, w)
    ensures Exec(Next, s, es + [Step(C(i), w)]) == Some(u)
  {
    ExecExtend(Next, s, es, t, Step(C(i), w), u);
  }

  class SharedBuffer {
    const size: nat
    const limit: nat
    var buffer: int
    var running: bool
    var itemsProduced: nat
    var itemsConsumed: nat

    // The mutex, where each thread stands and how many items it has made.
    var mutex: Option<Thread>
    var producers: seq<Producer>
    var consumers: seq<ConsumerPc>
    var main: Main

    ghost function Snapshot(): State
      reads this
    {
      State(size, limit, buffer, running, itemsProduced, itemsConsumed, mutex, producers, consumers, main)
    }

    constructor (k: nat, n: nat, size: nat, limit: nat)
      ensures Init(Snapshot()) && |producers| == k && |consumers| == n && this.size == size && this.limit == limit
    {
      this.size, this.limit := size, limit;
      buffer, running, itemsProduced, itemsConsumed := 0, true, 0, 0;
      mutex, main := None, JoinProducers(0);
      producers := seq(k, i => Producer(PTop, 0));
      consumers := seq(n, i => CTop);
    }

    method MoveProducer(i: nat, pc: ProducerPc, holder: Option<Thread>)
      requires i < |producers|
      modifies this`producers, this`mutex
      ensures Snapshot() == SetProducer(old(Snapshot()), i, Producer(pc, old(producers[i].count)), holder)
    {
      producers := producers[i := producers[i].(pc := pc)];
      mutex := holder;
    }

    method MoveConsumer(i: nat, pc: ConsumerPc, holder: Option<Thread>)
      requires i < |consumers|
      modifies this`consumers, this`mutex
      ensures Snapshot() == SetConsumer(old(Snapshot()), i, pc, holder)
    {
      consumers := consumers[i := pc];
      mutex := holder;
    }

    /** The update and the signal: buffer++, count++, items_produced++, pthread_cond_signal(&cond_consume). */
    method Produce(i: nat, woken: Option<nat>)
      requires i < |producers| && producers[i].pc == PProduce && WakesConsumer(Snapshot(), woken)
      modifies this
      ensures Snapshot() == ProducerStep(ProducerStep(old(Snapshot()), i, None), i, woken)
    {
      buffer := buffer + 1;
      itemsProduced := itemsProduced + 1;
      producers := producers[i := Producer(PUnlock, producers[i].count + 1)];
      if woken.Some? { consumers := consumers[woken.value := CWoken]; }
      assert producers == old(producers)[i := Producer(PSignal, old(producers[i].count) + 1)][i := producers[i]];
    }

    /** Producer i takes the mutex; waits and gives it back, or adds one item and unlocks, or quits. */
    method ProducerSection(i: nat, woken: Option<nat>) returns (ghost es: seq<Event>)
      requires i < |producers| && (producers[i].pc == PLock || producers[i].pc == PWoken) && mutex == None
      requires WakesConsumer(Snapshot(), woken)
      modifies this
      ensures Exec(Next, old(Snapshot()), es) == Some(Snapshot()) && mutex == None
      ensures old(running) && old(buffer) < size ==>
                buffer == old(buffer) + 1 && itemsProduced == old(itemsProduced) + 1
      ensures !old(running) || size <= old(buffer) ==> buffer == old(buffer) && itemsProduced == old(itemsProduced)
      ensures |producers| == old(|producers|)
      ensures producers[i].pc == if !old(running) then PDone else if size <= old(buffer) then PWaiting else PTop
    {
      ghost var s0 := Snapshot();
      MoveProducer(i, PTest, Some(P(i)));
      es := [Step(P(i), None)];
      ghost var s1 := Snapshot();
      if buffer >= size && running {
        MoveProducer(i, PWaiting, None);
        ProducerThen(s0, es, s1, i, None, Snapshot());
        es := es + [Step(P(i), None)];
        return;
      }
      MoveProducer(i, PCheck, mutex);
      ghost var s2 := Snapshot();
      ProducerThen(s0, es, s1, i, None, s2);
      es := es + [Step(P(i), None)];
      if !running {
        MoveProducer(i, PQuit, mutex);
        ghost var s3 := Snapshot();
        ProducerThen(s0, es, s2, i, None, s3);
        MoveProducer(i, PDone, None);
        ProducerThen(s0, es + [Step(P(i), None)], s3, i, None, Snapshot());
        es := es + [Step(P(i), None)] + [Step(P(i), None)];
        return;
      }
      MoveProducer(i, PProduce, mutex);
      ghost var s3 := Snapshot();
      ProducerThen(s0, es, s2, i, None, s3);
      es := es + [Step(P(i), None)];
      Produce(i, woken);
      ghost var s4 := Snapshot();
      ProducerThen(s0, es, s3, i, None, ProducerStep(s3, i, None));
      ProducerThen(s0, es + [Step(P(i), None)], ProducerStep(s3, i, None), i, woken, s4);
      es := es + [Step(P(i), None)] + [Step(P(i), woken)];
      MoveProducer(i, PTop, None);
      ProducerThen(s0, es, s4, i, None, Snapshot());
      es := es + [Step(P(i), None)];
    }

    /** buffer--, items_consumed++, pthread_cond_signal(&cond_produce). */
    method Consume(i: nat, woken: Option<nat>)
      requires i < |consumers| && consumers[i] == CCheck && 0 < buffer && WakesProducer(Snapshot(), woken)
      modifies this
      ensures Snapshot() == ConsumerStep(ConsumerStep(old(Snapshot()), i, None), i, woken)
    {
      buffer := buffer - 1;
      itemsConsumed := itemsConsumed + 1;
      consumers := consumers[i := CUnlock];
      if woken.Some? { producers := producers[woken.value := Producer(PWoken, producers[woken.value].count)]; }
      assert consumers == old(consumers)[i := CSignal][i := CUnlock];
    }

    /** Consumer i takes the mutex; waits and gives it back, or takes one item if there is one and unlocks. */
    method ConsumerSection(i: nat, woken: Option<nat>) returns (ghost es: seq<Event>)
      requires i < |consumers| && (consumers[i] == CLock || consumers[i] == CWoken) && mutex == None
      requires WakesProducer(Snapshot(), woken)
      modifies this
      ensures Exec(Next, old(Snapshot()), es) == Some(Snapshot()) && mutex == None
      ensures 0 < old(buffer) ==> buffer == old(buffer) - 1 && itemsConsumed == old(itemsConsumed) + 1
      ensures old(buffer) <= 0 ==> buffer == old(buffer) && itemsConsumed == old(itemsConsumed)
      ensures |consumers| == old(|consumers|)
      ensures consumers[i] == if old(buffer) == 0 && old(running) then CWaiting else CTop
    {
      ghost var s0 := Snapshot();
      MoveConsumer(i, CTest, Some(C(i)));
      es := [Step(C(i), None)];
      ghost var s1 := Snapshot();
      if buffer == 0 && running {
        MoveConsumer(i, CWaiting, None);
        ConsumerThen(s0, es, s1, i, None, Snapshot());
        es := es + [Step(C(i), None)];
        return;
      }
      MoveConsumer(i, CCheck, mutex);
      ghost var s2 := Snapshot();
      ConsumerThen(s0, es, s1, i, None, s2);
      es := es + [Step(C(i), None)];
      if buffer > 0 {
        Consume(i, woken);
        ConsumerThen(s0, es, s2, i, None, ConsumerStep(s2, i, None));
        ConsumerThen(s0, es + [Step(C(i), None)], ConsumerStep(s2, i, None), i, woken, Snapshot());
        es := es + [Step(C(i), None)] + [Step(C(i), woken)];
      } else {
        MoveConsumer(i, CUnlock, mutex);
        ConsumerThen(s0, es, s2, i, None, Snapshot());
        es := es + [Step(C(i), None)];
      }
      ghost var s3 := Snapshot();
      MoveConsumer(i, CTop, None);
      ConsumerThen(s0, es, s3, i, None, Snapshot());
      es := es + [Step(C(i), None)];
    }
  }
}
