/** Mutual exclusion, conservation and the credits that rule out lost wakeups, in every reachable state. */
module ProducerConsumerProofs {
  import opened Runs
  import opened Sequences
  import opened ProducerConsumer

  // ---------- Mutual exclusion ----------

  predicate ProducerHolds(pc: ProducerPc) {
    pc == PTest || pc == PCheck || pc == PProduce || pc == PSignal || pc == PUnlock || pc == PQuit
  }

  predicate ConsumerHolds(pc: ConsumerPc) {
    pc == CTest || pc == CCheck || pc == CSignal || pc == CUnlock
  }

  predicate Exclusion(s: State) {
    && (forall i :: 0 <= i < |s.producers| ==> (ProducerHolds(s.producers[i].pc) <==> s.mutex == Some(P(i))))
    && (forall i :: 0 <= i < |s.consumers| ==> (ConsumerHolds(s.consumers[i]) <==> s.mutex == Some(C(i))))
    && match s.mutex {
         case None => true
         case Some(P(i)) => i < |s.producers|
         case Some(C(i)) => i < |s.consumers|
       }
  }

  lemma ExclusionProducer(s: State, i: nat, w: Option<nat>)
    requires Exclusion(s) && ProducerEnabled(s, i, w)
    ensures Exclusion(ProducerStep(s, i, w))
  {
    assert ProducerHolds(s.producers[i].pc) <==> s.mutex == Some(P(i));
  }

  lemma ExclusionConsumer(s: State, i: nat, w: Option<nat>)
    requires Exclusion(s) && ConsumerEnabled(s, i, w)
    ensures Exclusion(ConsumerStep(s, i, w))
  {
    assert ConsumerHolds(s.consumers[i]) <==> s.mutex == Some(C(i));
  }

  lemma ExclusionStep(s: State, e: Event)
    requires Exclusion(s) && Enabled(s, e)
    ensures Exclusion(Apply(s, e))
  {
    match e
    case Step(P(i), w) => ExclusionProducer(s, i, w);
    case Step(C(i), w) => ExclusionConsumer(s, i, w);
    case _ =>
  }

  // ---------- What main knows ----------

  predicate ProducerFits(s: State, p: Producer) {
    && p.count <= s.limit && p.pc != PQuit
    && (p.pc == PDone ==> p.count == s.limit)
    && (p.pc == PLock || p.pc == PTest || p.pc == PCheck || p.pc == PProduce || p.pc == PWaiting || p.pc == PWoken ==>
          p.count < s.limit)
    && (p.pc == PCheck || p.pc == PProduce ==> s.buffer < s.size)
  }

  predicate ConsumerFits(s: State, pc: ConsumerPc) {
    && (pc == CTopBuffer ==> !s.running)
    && (pc == CCheck && s.buffer == 0 ==> !s.running)
    && (pc == CDone ==> !s.running && s.buffer == 0)
  }

  /** The first n producers have finished. */
  predicate Joined(s: State, n: nat) {
    n <= |s.producers| && forall i :: 0 <= i < n ==> s.producers[i].pc == PDone
  }

  predicate MainFits(s: State) {
    match s.main
    case JoinProducers(i) => s.running && Joined(s, i)
    case Stop => s.running && Joined(s, |s.producers|)
    case JoinConsumers(i) =>
      !s.running && Joined(s, |s.producers|) && i <= |s.consumers| && forall j :: 0 <= j < i ==> s.consumers[j] == CDone
    case MainDone =>
      !s.running && Joined(s, |s.producers|) && forall j :: 0 <= j < |s.consumers| ==> s.consumers[j] == CDone
  }

  predicate Shape(s: State) {
    && 0 <= s.buffer <= s.size
    && (forall i :: 0 <= i < |s.producers| ==> ProducerFits(s, s.producers[i]))
    && (forall i :: 0 <= i < |s.consumers| ==> ConsumerFits(s, s.consumers[i]))
    && MainFits(s)
  }

  lemma ShapeProducer(s: State, i: nat, w: Option<nat>)
    requires Exclusion(s) && Shape(s) && ProducerEnabled(s, i, w)
    ensures Shape(ProducerStep(s, i, w))
  {
    assert ProducerFits(s, s.producers[i]);
  }

  lemma ShapeConsumer(s: State, i: nat, w: Option<nat>)
    requires Exclusion(s) && Shape(s) && ConsumerEnabled(s, i, w)
    ensures Shape(ConsumerStep(s, i, w))
  {
    assert ConsumerFits(s, s.consumers[i]);
  }

  lemma ShapeStep(s: State, e: Event)
    requires Exclusion(s) && Shape(s) && Enabled(s, e)
    ensures Shape(Apply(s, e))
  {
    match e
    case Step(P(i), w) => ShapeProducer(s, i, w);
    case Step(C(i), w) => ShapeConsumer(s, i, w);
    case _ =>
  }

  // ---------- Conservation ----------

  function CountOf(p: Producer): int { p.count }

  /** Every item produced is counted by its producer, and is consumed or still in the buffer. */
  predicate Conserved(s: State) {
    s.produced == s.consumed + s.buffer && s.produced == Sum(s.producers, CountOf)
  }

  lemma ConservedProducer(s: State, i: nat, w: Option<nat>)
    requires Conserved(s) && ProducerEnabled(s, i, w)
    ensures Conserved(ProducerStep(s, i, w))
  {
    SumUpdate(s.producers, i, ProducerStep(s, i, w).producers[i], CountOf);
  }

  lemma ConservedConsumer(s: State, i: nat, w: Option<nat>)
    requires Conserved(s) && ConsumerEnabled(s, i, w)
    ensures Conserved(ConsumerStep(s, i, w))
  {
    if w.Some? { SumUpdate(s.producers, w.value, ConsumerStep(s, i, w).producers[w.value], CountOf); }
  }

  lemma ConservedWake(s: State, t: Thread)
    requires Conserved(s) && CanWake(s, t)
    ensures Conserved(Wake(s, t))
  {
    if t.P? { SumUpdate(s.producers, t.i, Wake(s, t).producers[t.i], CountOf); }
  }

  lemma ConservedStep(s: State, e: Event)
    requires Conserved(s) && Enabled(s, e)
    ensures Conserved(Apply(s, e))
  {
    match e
    case Step(P(i), w) => ConservedProducer(s, i, w);
    case Step(C(i), w) => ConservedConsumer(s, i, w);
    case MainStep =>
    case Spurious(t) => ConservedWake(s, t);
  }

  // ---------- Credits ----------

  /** A producer that has been woken, or holds the mutex, and has not yet added its item. */
  function ProducerActive(p: Producer): int {
    if p.pc == PWoken || p.pc == PTest || p.pc == PCheck || p.pc == PProduce then 1 else 0
  }

  function ProducerSignals(p: Producer): int { if p.pc == PSignal then 1 else 0 }

  function ConsumerActive(pc: ConsumerPc): int {
    if pc == CWoken || pc == CTest || pc == CCheck then 1 else 0
  }

  function ConsumerSignals(pc: ConsumerPc): int { if pc == CSignal then 1 else 0 }

  predicate ProducerSleeps(s: State) { exists i :: 0 <= i < |s.producers| && s.producers[i].pc == PWaiting }

  predicate ConsumerSleeps(s: State) { exists i :: 0 <= i < |s.consumers| && s.consumers[i] == CWaiting }

  /** While someone sleeps, every item (every free place) has someone awake who will take (fill) it. */
  predicate Credit(s: State) {
    && (ConsumerSleeps(s) ==> s.buffer <= Sum(s.consumers, ConsumerActive) + Sum(s.producers, ProducerSignals))
    && (ProducerSleeps(s) ==> s.size <= s.buffer + Sum(s.producers, ProducerActive) + Sum(s.consumers, ConsumerSignals))
  }

  lemma ProducerSums(ps: seq<Producer>, i: nat, p: Producer)
    requires i < |ps|
    ensures Sum(ps[i := p], ProducerActive) == Sum(ps, ProducerActive) - ProducerActive(ps[i]) + ProducerActive(p)
    ensures Sum(ps[i := p], ProducerSignals) == Sum(ps, ProducerSignals) - ProducerSignals(ps[i]) + ProducerSignals(p)
  {
    SumUpdate(ps, i, p, ProducerActive);
    SumUpdate(ps, i, p, ProducerSignals);
  }

  lemma ConsumerSums(cs: seq<ConsumerPc>, i: nat, c: ConsumerPc)
    requires i < |cs|
    ensures Sum(cs[i := c], ConsumerActive) == Sum(cs, ConsumerActive) - ConsumerActive(cs[i]) + ConsumerActive(c)
    ensures Sum(cs[i := c], ConsumerSignals) == Sum(cs, ConsumerSignals) - ConsumerSignals(cs[i]) + ConsumerSignals(c)
  {
    SumUpdate(cs, i, c, ConsumerActive);
    SumUpdate(cs, i, c, ConsumerSignals);
  }

  /** Sums of the indicator functions above are never negative. */
  lemma SumsNonNegative(s: State)
    ensures 0 <= Sum(s.producers, ProducerActive) && 0 <= Sum(s.producers, ProducerSignals)
    ensures 0 <= Sum(s.consumers, ConsumerActive) && 0 <= Sum(s.consumers, ConsumerSignals)
  {
    SumZero(s.producers, ProducerActive);
    SumZero(s.producers, ProducerSignals);
    SumZero(s.consumers, ConsumerActive);
    SumZero(s.consumers, ConsumerSignals);
  }

  lemma CreditProducer(s: State, i: nat, w: Option<nat>)
    requires Shape(s) && Credit(s) && ProducerEnabled(s, i, w)
    requires s.producers[i].pc != PDone ==> s.running
    ensures Credit(ProducerStep(s, i, w))
  {
    var t := ProducerStep(s, i, w);
    SumsNonNegative(t);
    assert ProducerFits(s, s.producers[i]);
    ProducerSums(s.producers, i, t.producers[i]);
    if w.Some? { ConsumerSums(s.consumers, w.value, CWoken); }
    assert ProducerSleeps(t) ==> ProducerSleeps(s) || s.buffer >= s.size;
    assert ConsumerSleeps(t) ==> ConsumerSleeps(s);
  }

  lemma CreditConsumer(s: State, i: nat, w: Option<nat>)
    requires Shape(s) && Credit(s) && ConsumerEnabled(s, i, w)
    ensures Credit(ConsumerStep(s, i, w))
  {
    var t := ConsumerStep(s, i, w);
    SumsNonNegative(t);
    ConsumerSums(s.consumers, i, t.consumers[i]);
    if w.Some? { ProducerSums(s.producers, w.value, t.producers[w.value]); }
    assert ConsumerSleeps(t) ==> ConsumerSleeps(s) || s.buffer == 0;
    assert ProducerSleeps(t) ==> ProducerSleeps(s);
  }

  lemma CreditWake(s: State, t: Thread)
    requires Credit(s) && CanWake(s, t)
    ensures Credit(Wake(s, t))
  {
    match t
    case P(i) => ProducerSums(s.producers, i, Wake(s, t).producers[i]);
    case C(i) => ConsumerSums(s.consumers, i, CWoken);
  }

  lemma CreditStep(s: State, e: Event)
    requires Shape(s) && Credit(s) && Enabled(s, e)
    ensures Credit(Apply(s, e))
  {
    match e
    case Step(P(i), w) =>
      CreditProducer(s, i, w);
    case Step(C(i), w) => CreditConsumer(s, i, w);
    case MainStep =>
    case Spurious(t) => CreditWake(s, t);
  }

  // ---------- All together ----------

  predicate Inv(s: State) { Exclusion(s) && Shape(s) && Conserved(s) && Credit(s) }

  lemma InvStep(s: State, e: Event)
    requires Inv(s) && Enabled(s, e)
    ensures Inv(Apply(s, e))
  {
    ExclusionStep(s, e);
    ShapeStep(s, e);
    ConservedStep(s, e);
    CreditStep(s, e);
  }

  lemma InvInit(s: State)
    requires Init(s)
    ensures Inv(s)
  {
    SumZero(s.producers, CountOf);
  }

  lemma InvRun(s: State, es: seq<Event>)
    requires Init(s) && Exec(Next, s, es).Some?
    ensures Inv(Exec(Next, s, es).value)
  {
    InvInit(s);
    forall t, e | Inv(t) && Next(t, e).Some? ensures Inv(Next(t, e).value) { InvStep(t, e); }
    Invariance(Next, Inv, s, es);
  }
}
