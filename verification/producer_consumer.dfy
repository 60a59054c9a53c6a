/**
 Producers and consumers that share a bounded buffer through one mutex and two condition variables,
 for any number of threads, any buffer size and any limit of items per producer.  One event is one
 step of one thread: a test, a lock operation, an update under the lock, or a condition operation.
 */
module ProducerConsumer {
  import opened Runs

  datatype ProducerPc =
    | PTop        // loop guard
    | PLock       // wants the mutex
    | PTest       // guard of the inner loop, mutex held
    | PCheck      // has left the inner loop, mutex held
    | PProduce | PSignal | PUnlock | PQuit
    | PWaiting    // in pthread_cond_wait, mutex released
    | PWoken      // woken, wants the mutex again
    | PDone

  datatype ConsumerPc =
    | CTop | CTopBuffer   // loop guard: running, then buffer
    | CLock | CTest | CCheck | CSignal | CUnlock | CWaiting | CWoken | CDone

  datatype Producer = Producer(pc: ProducerPc, count: nat)

  datatype Main = JoinProducers(i: nat) | Stop | JoinConsumers(i: nat) | MainDone

  datatype Thread = P(i: nat) | C(i: nat)

  datatype State = State(
    size: nat, limit: nat,
    buffer: int, running: bool, produced: nat, consumed: nat,
    mutex: Option<Thread>, producers: seq<Producer>, consumers: seq<ConsumerPc>, main: Main
  )

  /**
   woken: the thread pthread_cond_signal wakes, if it wakes one.  A system that wakes several threads
   at once is covered by further spurious wakeups.
   */
  datatype Event =
    | Step(t: Thread, woken: Option<nat>)
    | MainStep
    | Spurious(t: Thread)

  // ---------- Producer ----------

  function SetProducer(s: State, i: nat, p: Producer, mutex: Option<Thread>): State
    requires i < |s.producers|
  {
    s.(producers := s.producers[i := p], mutex := mutex)
  }

  /** pthread_cond_signal wakes one waiting thread whenever there is one. */
  predicate WakesConsumer(s: State, woken: Option<nat>) {
    match woken
    case Some(j) => j < |s.consumers| && s.consumers[j] == CWaiting
    case None => CWaiting !in s.consumers
  }

  predicate WakesProducer(s: State, woken: Option<nat>) {
    match woken
    case Some(j) => j < |s.producers| && s.producers[j].pc == PWaiting
    case None => forall j :: 0 <= j < |s.producers| ==> s.producers[j].pc != PWaiting
  }

  predicate ProducerEnabled(s: State, i: nat, woken: Option<nat>) {
    i < |s.producers| &&
    match s.producers[i].pc
    case PLock => s.mutex == None && woken == None
    case PWoken => s.mutex == None && woken == None
    case PSignal => WakesConsumer(s, woken)
    case PWaiting => false
    case PDone => false
    case _ => woken == None
  }

  function ProducerStep(s: State, i: nat, woken: Option<nat>): State
    requires ProducerEnabled(s, i, woken)
  {
    var Producer(pc, count) := s.producers[i];
    var me := Some(P(i));
    match pc
    case PTop => SetProducer(s, i, Producer(if s.running && count < s.limit then PLock else PDone, count), s.mutex)
    case PLock => SetProducer(s, i, Producer(PTest, count), me)
    case PWoken => SetProducer(s, i, Producer(PTest, count), me)
    case PTest =>
      if s.buffer >= s.size && s.running then SetProducer(s, i, Producer(PWaiting, count), None)
      else SetProducer(s, i, Producer(PCheck, count), s.mutex)
    case PCheck => SetProducer(s, i, Producer(if s.running then PProduce else PQuit, count), s.mutex)
    case PProduce =>
      SetProducer(s, i, Producer(PSignal, count + 1), s.mutex).(buffer := s.buffer + 1, produced := s.produced + 1)
    case PSignal =>
      var t := SetProducer(s, i, Producer(PUnlock, count), s.mutex);
      if woken.Some? then t.(consumers := s.consumers[woken.value := CWoken]) else t
    case PUnlock => SetProducer(s, i, Producer(PTop, count), None)
    case _ => SetProducer(s, i, Producer(PDone, count), None)
  }

  // ---------- Consumer ----------

  function SetConsumer(s: State, i: nat, pc: ConsumerPc, mutex: Option<Thread>): State
    requires i < |s.consumers|
  {
    s.(consumers := s.consumers[i := pc], mutex := mutex)
  }

  predicate ConsumerEnabled(s: State, i: nat, woken: Option<nat>) {
    i < |s.consumers| &&
    match s.consumers[i]
    case CLock => s.mutex == None && woken == None
    case CWoken => s.mutex == None && woken == None
    case CSignal => WakesProducer(s, woken)
    case CWaiting => false
    case CDone => false
    case _ => woken == None
  }

  function ConsumerStep(s: State, i: nat, woken: Option<nat>): State
    requires ConsumerEnabled(s, i, woken)
  {
    var me := Some(C(i));
    match s.consumers[i]
    case CTop => SetConsumer(s, i, if s.running then CLock else CTopBuffer, s.mutex)
    case CTopBuffer => SetConsumer(s, i, if s.buffer > 0 then CLock else CDone, s.mutex)
    case CLock => SetConsumer(s, i, CTest, me)
    case CWoken => SetConsumer(s, i, CTest, me)
    case CTest =>
      if s.buffer == 0 && s.running then SetConsumer(s, i, CWaiting, None) else SetConsumer(s, i, CCheck, s.mutex)
    case CCheck =>
      if s.buffer > 0 then SetConsumer(s, i, CSignal, s.mutex).(buffer := s.buffer - 1, consumed := s.consumed + 1)
      else SetConsumer(s, i, CUnlock, s.mutex)
    case CSignal =>
      var t := SetConsumer(s, i, CUnlock, s.mutex);
      if woken.Some? then t.(producers := s.producers[woken.value := Producer(PWoken, s.producers[woken.value].count)])
      else t
    case _ => SetConsumer(s, i, CTop, None)
  }

  // ---------- Main, spurious wakeups ----------

  predicate MainEnabled(s: State) {
    match s.main
    case JoinProducers(i) => i >= |s.producers| || s.producers[i].pc == PDone
    case Stop => true
    case JoinConsumers(i) => i >= |s.consumers| || s.consumers[i] == CDone
    case MainDone => false
  }

  function AfterMain(s: State): State {
    match s.main
    case JoinProducers(i) => s.(main := if i < |s.producers| then JoinProducers(i + 1) else Stop)
    case Stop => s.(running := false, main := JoinConsumers(0))
    case JoinConsumers(i) => s.(main := if i < |s.consumers| then JoinConsumers(i + 1) else MainDone)
    case MainDone => s
  }

  predicate CanWake(s: State, t: Thread) {
    match t
    case P(i) => i < |s.producers| && s.producers[i].pc == PWaiting
    case C(i) => i < |s.consumers| && s.consumers[i] == CWaiting
  }

  function Wake(s: State, t: Thread): State
    requires CanWake(s, t)
  {
    match t
    case P(i) => s.(producers := s.producers[i := Producer(PWoken, s.producers[i].count)])
    case C(i) => s.(consumers := s.consumers[i := CWoken])
  }

  predicate Enabled(s: State, e: Event) {
    match e
    case Step(P(i), w) => ProducerEnabled(s, i, w)
    case Step(C(i), w) => ConsumerEnabled(s, i, w)
    case MainStep => MainEnabled(s)
    case Spurious(t) => CanWake(s, t)
  }

  function Apply(s: State, e: Event): State
    requires Enabled(s, e)
  {
    match e
    case Step(P(i), w) => ProducerStep(s, i, w)
    case Step(C(i), w) => ConsumerStep(s, i, w)
    case MainStep => AfterMain(s)
    case Spurious(t) => Wake(s, t)
  }

  function Next(s: State, e: Event): (r: Option<State>) {
    if Enabled(s, e) then Some(Apply(s, e)) else None
  }

  /** k producers and n consumers start; nothing is produced yet. */
  predicate Init(s: State) {
    && s.buffer == 0 && s.running && s.produced == 0 && s.consumed == 0
    && s.mutex == None && s.main == JoinProducers(0)
    && (forall i :: 0 <= i < |s.producers| ==> s.producers[i] == Producer(PTop, 0))
    && (forall i :: 0 <= i < |s.consumers| ==> s.consumers[i] == CTop)
  }
}
