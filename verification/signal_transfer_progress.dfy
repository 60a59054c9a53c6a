/** Runs in which no system call fails: they end, and they end with the whole file copied. */
module SignalTransferProgress {
  import opened Runs
  import opened SignalTransfer
  import opened SignalTransferProofs

  /** No call fails, read returns 0 only at the end of the file, write makes progress. */
  predicate Benign(s: State, e: Event) {
    match e
    case Read(n) => 0 < n || (n == 0 && s.pos == |s.input|)
    case Publish(ok) => ok
    case Seed(ok) => ok
    case Return(ok) => ok
    case Write(n) => 0 < n
    case _ => true
  }

  function BenignStep(s: State, e: Event): Option<State> {
    if Benign(s, e) then Step(s, e) else None
  }

  /** file_size as stat reports it for the file that is read. */
  predicate BenignInit(s: State) { Init(s) && s.shared.fileSize == |s.input| }

  predicate Smooth(s: State) {
    && s.shared.fileSize == |s.input| && s.lost == 0 && !s.child.ignored
    && s.shared.consumerEnded == NotEnded
    && s.shared.producerEnded == (if s.parent.handler.Ignoring? || s.parent.ignored then ProdSucc else NotEnded)
    && (s.parent.handler.Ending? ==> s.pos == |s.input|)
    && (s.retired != [] ==> s.parent.ignored)
    && (s.parent.main == ParentWaits || s.parent.main == ParentGone ==> s.parent.ignored)
    && (s.parent.main == ParentPaused ==> !s.parent.ignored)
    && (s.parent.main == ParentGone ==> s.child.main.Left?)
    && (s.child.main.Left? ==> s.shared.producerEnded == ProdSucc)
    && (s.child.seeded < CHUNKS ==> s.child.main == Seeding)
  }

  lemma SmoothStep(s: State, e: Event)
    requires Smooth(s) && Benign(s, e) && Enabled(s, e)
    requires s.parent.queue != [] ==> IsChunk(s.parent.queue[0])
    requires s.child.queue != [] ==> IsChunk(s.child.queue[0])
    requires s.pos == s.shared.bytesRead + HeldSize(s.parent.handler)
    requires ParentEnded(s) && s.child.seeded <= CHUNKS
    ensures Smooth(Apply(s, e))
  {}

  ghost predicate BenignInv(s: State) { Inv(s) && Smooth(s) }

  lemma BenignInvStep(s: State, e: Event)
    requires BenignInv(s) && BenignStep(s, e).Some?
    ensures BenignInv(BenignStep(s, e).value)
  {
    InvStep(s, e);
    if s.parent.queue != [] { Apart(s, s.parent.queue[0]); }
    if s.child.queue != [] { Apart(s, s.child.queue[0]); }
    SmoothStep(s, e);
  }

  lemma BenignRun(s: State, es: seq<Event>)
    requires BenignInit(s) && Exec(BenignStep, s, es).Some?
    ensures BenignInv(Exec(BenignStep, s, es).value)
  {
    InvInit(s);
    forall t, e | BenignInv(t) && BenignStep(t, e).Some?
      ensures BenignInv(BenignStep(t, e).value)
    {
      BenignInvStep(t, e);
    }
    Invariance(BenignStep, (t: State) => BenignInv(t), s, es);
  }

  // ---------- Every such run ends ----------

  function ProducerWeight(p: Producer): nat {
    match p
    case ProducerIdle => 0 case Ignoring(_) => 3 case Ending(_) => 4 case Reading(_) => 5 case Holding(_, _) => 11
  }

  function ParentWeight(m: ParentMain): nat {
    match m case ParentChecks => 2 case ParentGone => 0 case _ => 1
  }

  function ChildWeight(m: ChildMain): nat {
    match m case ChildPaused => 1 case Left(_) => 0 case _ => 2
  }

  /** An upper bound on the number of events still to come. */
  function Remaining(s: State): int {
    20 * (|s.input| - s.pos) + (s.pos - |s.output|)
    + (if s.shared.attempts < MAX_ATTEMPTS then MAX_ATTEMPTS - s.shared.attempts else 0)
    + 7 * (CHUNKS - s.child.seeded) + 6 * |s.parent.queue| + ProducerWeight(s.parent.handler)
    + 9 * |s.child.queue| + (if s.child.handler.Writing? then 8 else 0)
    + ParentWeight(s.parent.main) + ChildWeight(s.child.main)
  }

  predicate OfParent(e: Event) {
    e.ProducerDeliver? || e.Read? || e.Publish? || e.StoreEnd? || e.IgnoreProducer? || e.ParentCheck? || e.ParentReap?
  }

  lemma RemainingRead(s: State, n: int)
    requires Smooth(s) && Benign(s, Read(n)) && Enabled(s, Read(n))
    ensures Remaining(AfterRead(s, n)) < Remaining(s)
  {}

  lemma RemainingPublish(s: State, ok: bool)
    requires Smooth(s) && Benign(s, Publish(ok)) && Enabled(s, Publish(ok))
    ensures Remaining(AfterPublish(s, ok)) < Remaining(s)
  {}

  lemma RemainingParentStep(s: State, e: Event)
    requires Smooth(s) && Benign(s, e) && Enabled(s, e) && OfParent(e)
    requires s.parent.queue != [] ==> IsChunk(s.parent.queue[0])
    ensures Remaining(Apply(s, e)) < Remaining(s)
  {
    match e
    case Read(n) => RemainingRead(s, n);
    case Publish(ok) => RemainingPublish(s, ok);
    case _ =>
  }

  lemma RemainingChildStep(s: State, e: Event)
    requires Smooth(s) && Benign(s, e) && Enabled(s, e) && !OfParent(e)
    requires s.child.queue != [] ==> IsChunk(s.child.queue[0])
    ensures Remaining(Apply(s, e)) < Remaining(s)
  {}

  lemma RemainingStep(s: State, e: Event)
    requires BenignInv(s) && Benign(s, e) && Enabled(s, e)
    ensures Remaining(Apply(s, e)) < Remaining(s)
  {
    if s.parent.queue != [] { Apart(s, s.parent.queue[0]); }
    if s.child.queue != [] { Apart(s, s.child.queue[0]); }
    if OfParent(e) { RemainingParentStep(s, e); } else { RemainingChildStep(s, e); }
  }

  lemma RemainingNonNegative(s: State)
    requires BenignInv(s)
    ensures 0 <= Remaining(s)
  {}

  /** The length of every run without failures is bounded by the size of the file. */
  lemma {:induction false} RunsAreFinite(s: State, es: seq<Event>)
    requires BenignInit(s) && Exec(BenignStep, s, es).Some?
    ensures |es| + Remaining(Exec(BenignStep, s, es).value) <= Remaining(s) == 20 * |s.input| + 160
    decreases |es|
  {
    if es != [] {
      var fs, e := es[..|es| - 1], es[|es| - 1];
      RunsAreFinite(s, fs);
      BenignRun(s, fs);
      RemainingStep(Exec(BenignStep, s, fs).value, e);
    }
  }

  // ---------- And ends well ----------

  /** The file is copied and both processes have ended. */
  predicate Ended(s: State) {
    && s.output == s.input && s.shared.producerEnded == ProdSucc
    && s.child.main == Left(1) && s.parent.main == ParentGone
  }

  /** The file is copied; the child sleeps in a pause no signal will end, and the parent waits for it. */
  predicate Hangs(s: State) {
    && s.output == s.input && s.shared.producerEnded == ProdSucc
    && s.child.main == ChildPaused && s.parent.main == ParentWaits
  }

  predicate Finished(s: State) { Ended(s) || Hangs(s) }

  predicate AtRest(s: State) {
    && s.parent.handler == ProducerIdle && s.child.handler == ConsumerIdle
    && s.parent.queue == [] && s.child.queue == [] && s.child.seeded == CHUNKS
  }

  /** With no slot on its way, the producer has ended and every byte has arrived. */
  lemma RestMeansDelivered(s: State)
    requires BenignInv(s) && AtRest(s)
    ensures s.output == s.input && s.shared.producerEnded == ProdSucc
  {
    assert Places(s, 0) == 1;
    assert s.parent.ignored;
    assert InFlight(s) == [];
  }

  /** The tests of the two main loops and the wait for the child. */
  predicate OfMain(e: Event) { e == ChildCheck || e == ParentCheck || e == ParentReap }

  lemma BusyEvent(s: State) returns (e: Event)
    requires WellFormed(s) && Smooth(s) && !AtRest(s) && s.child.seeded <= CHUNKS
    requires s.child.main.Left? ==> s.child.queue == []
    requires s.parent.ignored ==> s.parent.queue == []
    ensures BenignStep(s, e).Some? && !OfMain(e)
    ensures e == StoreEnd ==> s.child.handler == ConsumerIdle && s.child.queue == [] && s.child.seeded == CHUNKS
  {
    if s.child.handler.Writing? {
      e := if s.child.handler.written < s.child.handler.total then Write(1) else Return(true);
    } else if s.child.queue != [] {
      e := ConsumerDeliver;
    } else if s.child.seeded < CHUNKS {
      e := Seed(true);
    } else if s.parent.handler == ProducerIdle {
      e := ProducerDeliver;
    } else {
      e := match s.parent.handler
           case Reading(_) => if s.pos < |s.input| then Read(1) else Read(0)
           case Holding(_, _) => Publish(true)
           case Ending(_) => StoreEnd
           case _ => IgnoreProducer;
    }
  }

  /** What is left to do when no slot is on its way. */
  lemma LastEvent(s: State) returns (e: Event)
    requires BenignInv(s) && AtRest(s) && !Finished(s)
    ensures BenignStep(s, e).Some? && OfMain(e)
    ensures e == ChildCheck ==> s.child.main != ChildPaused
  {
    RestMeansDelivered(s);
    e := if s.child.main != ChildPaused && !s.child.main.Left? then ChildCheck
         else if s.parent.main == ParentChecks then ParentCheck
         else ParentReap;
  }

  /** Until the copy is finished something can happen. */
  lemma NextEvent(s: State) returns (e: Event)
    requires BenignInv(s) && !Finished(s)
    ensures BenignStep(s, e).Some?
  {
    if AtRest(s) {
      RestMeansDelivered(s);
      e := LastEvent(s);
    } else {
      e := BusyEvent(s);
    }
  }

  /** A run in which nothing more can happen has copied the whole file. */
  lemma MaximalRunsDeliver(s: State, es: seq<Event>)
    requires BenignInit(s) && Exec(BenignStep, s, es).Some?
    requires forall e :: BenignStep(Exec(BenignStep, s, es).value, e) == None
    ensures Finished(Exec(BenignStep, s, es).value)
  {
    BenignRun(s, es);
    var t := Exec(BenignStep, s, es).value;
    if !Finished(t) {
      var _ := NextEvent(t);
    }
  }

  lemma {:induction false} BenignRunIsRun(s: State, es: seq<Event>)
    requires Exec(BenignStep, s, es).Some?
    ensures Exec(Step, s, es) == Exec(BenignStep, s, es)
    decreases |es|
  {
    if es != [] { BenignRunIsRun(s, es[..|es| - 1]); }
  }

  /** Whatever has happened without failures so far, the copy can still be completed. */
  lemma {:induction false} CanAlwaysFinish(s: State, es: seq<Event>) returns (fs: seq<Event>)
    requires BenignInit(s) && Exec(BenignStep, s, es).Some?
    ensures es <= fs && Exec(BenignStep, s, fs).Some? && Finished(Exec(BenignStep, s, fs).value)
    decreases 20 * |s.input| + 160 - |es|
  {
    BenignRun(s, es);
    RunsAreFinite(s, es);
    var t := Exec(BenignStep, s, es).value;
    if Finished(t) {
      fs := es;
    } else {
      var e := NextEvent(t);
      ExecAppend(BenignStep, s, es, e);
      BenignRun(s, es + [e]);
      RunsAreFinite(s, es + [e]);
      RemainingNonNegative(Exec(BenignStep, s, es + [e]).value);
      fs := CanAlwaysFinish(s, es + [e]);
    }
  }
}
