/**
 How the two processes of signal_transfer.dfy leave their loops: which events end them, in every run, and
 from which states of a failure-free run both still end.
 */
module SignalTransferEndings {
  import opened Runs
  import opened SignalTransfer
  import opened SignalTransferProofs
  import opened SignalTransferTheorems
  import opened SignalTransferProgress

  // ---------- End codes ----------

  /** The events that store an end code of the producer, of the consumer. */
  predicate EndsProducer(e: Event) { e == StoreEnd || e == Publish(false) }

  predicate EndsConsumer(e: Event) { e == Write(-1) || e == Return(false) }

  predicate Ends(e: Event) { EndsProducer(e) || EndsConsumer(e) }

  /** The parent's handler returns. */
  predicate ParentHandlerReturns(e: Event) { e.Publish? || e == IgnoreProducer }

  predicate ProducerStopped(es: seq<Event>) { exists i :: 0 <= i < |es| && EndsProducer(es[i]) }

  predicate ConsumerStopped(es: seq<Event>) { exists i :: 0 <= i < |es| && EndsConsumer(es[i]) }

  /** The child has tested its condition after an end code of the producer was stored. */
  predicate ChildSawEnd(es: seq<Event>) {
    exists i, j :: 0 <= i < j < |es| && EndsProducer(es[i]) && es[j] == ChildCheck
  }

  /** The parent has tested its condition after an end code was stored. */
  predicate ParentSawEnd(es: seq<Event>) {
    exists i, j :: 0 <= i < j < |es| && Ends(es[i]) && es[j] == ParentCheck
  }

  /** Its wait for the child was over, or was interrupted by a handler. */
  predicate ParentStoppedWaiting(es: seq<Event>) {
    exists i, j, k :: 0 <= i < j < k < |es| && Ends(es[i]) && es[j] == ParentCheck
                      && (es[k] == ParentReap || ParentHandlerReturns(es[k]))
  }

  predicate SeedFailed(es: seq<Event>) { exists i :: 0 <= i < |es| && es[i] == Seed(false) }

  lemma StoppedAppend(es: seq<Event>, e: Event)
    ensures ProducerStopped(es + [e]) <==> ProducerStopped(es) || EndsProducer(e)
    ensures ConsumerStopped(es + [e]) <==> ConsumerStopped(es) || EndsConsumer(e)
    ensures SeedFailed(es + [e]) <==> SeedFailed(es) || e == Seed(false)
  {
    var fs := es + [e];
    assert fs[|es|] == e && forall i :: 0 <= i < |es| ==> fs[i] == es[i];
  }

  lemma ChildSawAppend(es: seq<Event>, e: Event)
    ensures ChildSawEnd(es + [e]) <==> ChildSawEnd(es) || (ProducerStopped(es) && e == ChildCheck)
  {
    var fs := es + [e];
    assert fs[|es|] == e && forall i :: 0 <= i < |es| ==> fs[i] == es[i];
  }

  lemma ParentSawAppend(es: seq<Event>, e: Event)
    ensures ParentSawEnd(es + [e]) <==>
              ParentSawEnd(es) || ((ProducerStopped(es) || ConsumerStopped(es)) && e == ParentCheck)
  {
    var fs := es + [e];
    assert fs[|es|] == e && forall i :: 0 <= i < |es| ==> fs[i] == es[i];
  }

  lemma ParentStoppedAppend(es: seq<Event>, e: Event)
    ensures ParentStoppedWaiting(es + [e]) <==>
              ParentStoppedWaiting(es) || (ParentSawEnd(es) && (e == ParentReap || ParentHandlerReturns(e)))
  {
    var fs := es + [e];
    assert fs[|es|] == e && forall i :: 0 <= i < |es| ==> fs[i] == es[i];
  }

  predicate ProducerCode(s: State) { s.shared.producerEnded != NotEnded }

  predicate ConsumerCode(s: State) { s.shared.consumerEnded != NotEnded }

  predicate ParentOut(s: State) { s.parent.main == ParentWaits || s.parent.main == ParentGone }

  /** What one event does to the codes, to the child's loop and to the parent's. */
  lemma EndingStep(s: State, e: Event)
    requires Enabled(s, e)
    requires s.parent.queue != [] ==> IsChunk(s.parent.queue[0])
    requires s.child.queue != [] ==> IsChunk(s.child.queue[0])
    ensures var t := Apply(s, e);
            && (ProducerCode(t) <==> ProducerCode(s) || EndsProducer(e))
            && (ConsumerCode(t) <==> ConsumerCode(s) || EndsConsumer(e))
  {}

  lemma ChildEndingStep(s: State, e: Event)
    requires Enabled(s, e)
    requires s.child.queue != [] ==> IsChunk(s.child.queue[0])
    ensures var t := Apply(s, e);
            (t.child.main.Left? <==>
                  s.child.main.Left? || e == Seed(false) || (e == ChildCheck && ProducerCode(s)))
  {}

  lemma ParentEndingStep(s: State, e: Event)
    requires Enabled(s, e)
    requires s.parent.queue != [] ==> IsChunk(s.parent.queue[0])
    ensures var t := Apply(s, e);
            && (ParentOut(t) <==> ParentOut(s) || (e == ParentCheck && (ProducerCode(s) || ConsumerCode(s))))
            && (t.parent.main == ParentGone <==>
                  s.parent.main == ParentGone
                  || (s.parent.main == ParentWaits && (e == ParentReap || ParentHandlerReturns(e))))
  {}

  /** In every run the state of the codes and loops is the history of those events. */
  predicate MatchesHistory(t: State, es: seq<Event>) {
    && (ProducerCode(t) <==> ProducerStopped(es))
    && (ConsumerCode(t) <==> ConsumerStopped(es))
    && (t.child.main.Left? <==> SeedFailed(es) || ChildSawEnd(es))
    && (ParentOut(t) <==> ParentSawEnd(es))
    && (t.parent.main == ParentGone <==> ParentStoppedWaiting(es))
  }

  /**
   In every run: an end code is stored exactly after an event that ends a side; the child has left exactly
   when a seed failed or it tested its condition after the producer's code; the parent waits or has ended
   exactly when it tested its condition after any code, and has ended exactly when that wait was over or a
   handler interrupted it.
   */
  lemma {:induction false} HowTheyEnd(s: State, es: seq<Event>)
    requires Init(s) && Exec(Step, s, es).Some?
    ensures MatchesHistory(Exec(Step, s, es).value, es)
    decreases |es|
  {
    if es != [] {
      var fs, e := es[..|es| - 1], es[|es| - 1];
      var t := Exec(Step, s, fs).value;
      assert es == fs + [e];
      HowTheyEnd(s, fs);
      InvRun(s, fs);
      if t.parent.queue != [] { Apart(t, t.parent.queue[0]); }
      if t.child.queue != [] { Apart(t, t.child.queue[0]); }
      HistoryStep(t, fs, e);
    }
  }

  lemma HistoryStep(t: State, fs: seq<Event>, e: Event)
    requires Enabled(t, e) && MatchesHistory(t, fs)
    requires t.parent.queue != [] ==> IsChunk(t.parent.queue[0])
    requires t.child.queue != [] ==> IsChunk(t.child.queue[0])
    ensures MatchesHistory(Apply(t, e), fs + [e])
  {
    EndingStep(t, e);
    ChildEndingStep(t, e);
    ParentEndingStep(t, e);
    StoppedAppend(fs, e);
    ChildSawAppend(fs, e);
    ParentSawAppend(fs, e);
    ParentStoppedAppend(fs, e);
  }

  /** The code at the end of the input: success exactly when as many bytes were read as the file had. */
  lemma EndCodeIsExact(s: State, es: seq<Event>)
    requires Init(s) && Exec(Step, s, es + [StoreEnd]).Some?
    ensures var t := Exec(Step, s, es + [StoreEnd]).value;
            t.shared.producerEnded == if t.pos == s.shared.fileSize then ProdSucc else ProdFail
  {
    ExecAppend(Step, s, es, StoreEnd);
    InvRun(s, es);
    Constant(s, es);
  }

  /** How often read was called. */
  function Reads(es: seq<Event>): nat {
    if es == [] then 0 else Reads(es[..|es| - 1]) + if es[|es| - 1].Read? then 1 else 0
  }

  lemma {:induction false} AttemptsAreReads(s: State, es: seq<Event>)
    requires Init(s) && Exec(Step, s, es).Some?
    ensures Exec(Step, s, es).value.shared.attempts == Reads(es)
    decreases |es|
  {
    if es != [] {
      AttemptsAreReads(s, es[..|es| - 1]);
      AttemptsStep(Exec(Step, s, es[..|es| - 1]).value, es[|es| - 1]);
    }
  }

  lemma AttemptsStep(s: State, e: Event)
    requires Enabled(s, e)
    ensures Apply(s, e).shared.attempts == s.shared.attempts + if e.Read? then 1 else 0
  {}

  /** A read is repeated exactly if it gave nothing, the file had more bytes and it was not the 99th of all. */
  lemma ReadIsRepeatedIff(s: State, es: seq<Event>, n: int)
    requires Init(s) && Exec(Step, s, es + [Read(n)]).Some?
    ensures var t := Exec(Step, s, es + [Read(n)]).value;
            t.parent.handler.Reading? <==> n == 0 && t.pos < s.shared.fileSize && Reads(es) + 1 < 99
  {
    ExecAppend(Step, s, es, Read(n));
    AttemptsAreReads(s, es);
    InvRun(s, es);
    Constant(s, es);
  }

  /** The child that tests after a reported success leaves, with the whole file exactly if nothing was lost. */
  lemma ChildLeaves(s: State, es: seq<Event>)
    requires Init(s) && Exec(Step, s, es + [ChildCheck]).Some?
    requires Exec(Step, s, es).Some? && Exec(Step, s, es).value.shared.producerEnded == ProdSucc
    ensures var u := Exec(Step, s, es + [ChildCheck]).value;
            && u.child.main == Left(1) && s.shared.fileSize <= |s.input|
            && (u.output == s.input[..s.shared.fileSize] <==> Lossless(es))
  {
    ExecAppend(Step, s, es, ChildCheck);
    LeavesWithWholeFile(s, es);
    ExitCodeIsOne(s, es + [ChildCheck]);
    HowTheyEnd(s, es);
    HowTheyEnd(s, es + [ChildCheck]);
    ChildSawAppend(es, ChildCheck);
  }

  // ---------- Failure-free runs ----------

  /** The child sleeps and no signal will come: nothing can wake it any more. */
  predicate Asleep(s: State) { s.child.main == ChildPaused && s.output == s.input && s.child.handler == ConsumerIdle }

  lemma NothingToDeliver(s: State)
    requires BenignInv(s) && Asleep(s)
    ensures s.child.queue == [] && !s.parent.handler.Holding? && s.pos == |s.input|
  {
    assert |s.output| + |InFlight(s)| + s.lost == s.pos <= |s.input|;
  }

  lemma AsleepStep(s: State, e: Event)
    requires BenignInv(s) && Asleep(s) && Benign(s, e) && Enabled(s, e)
    ensures Asleep(Apply(s, e))
  {
    NothingToDeliver(s);
  }

  lemma {:induction false} AsleepForever(s: State, es: seq<Event>)
    requires BenignInv(s) && Asleep(s) && Exec(BenignStep, s, es).Some?
    ensures Asleep(Exec(BenignStep, s, es).value)
    decreases |es|
  {
    var inv := (t: State) => BenignInv(t) && Asleep(t);
    forall t, e | inv(t) && BenignStep(t, e).Some? ensures inv(BenignStep(t, e).value) {
      AsleepStep(t, e);
      BenignInvStep(t, e);
    }
    Invariance(BenignStep, inv, s, es);
  }

  lemma BusyKeepsAwake(s: State, e: Event)
    requires !Asleep(s) && Benign(s, e) && Enabled(s, e) && !OfMain(e)
    requires s.child.queue != [] ==> IsChunk(s.child.queue[0])
    ensures !Asleep(Apply(s, e))
  {}

  lemma MainKeepsAwake(s: State, e: Event)
    requires BenignInv(s) && !Asleep(s) && Benign(s, e) && Enabled(s, e) && OfMain(e)
    requires AtRest(s)
    ensures !Asleep(Apply(s, e))
  {
    RestMeansDelivered(s);
  }

  /** One more step towards the end of both processes. */
  lemma AwakeEvent(s: State) returns (e: Event)
    requires BenignInv(s) && !Asleep(s) && !Ended(s)
    ensures BenignStep(s, e).Some? && !Asleep(Apply(s, e))
  {
    if AtRest(s) {
      RestMeansDelivered(s);
      e := LastEvent(s);
      MainKeepsAwake(s, e);
    } else {
      e := BusyEvent(s);
      if s.child.queue != [] { Apart(s, s.child.queue[0]); }
      BusyKeepsAwake(s, e);
    }
  }

  lemma {:induction false} AwakeEnds(s: State) returns (fs: seq<Event>)
    requires BenignInv(s) && !Asleep(s)
    ensures Exec(BenignStep, s, fs).Some? && Ended(Exec(BenignStep, s, fs).value)
    ensures Exec(BenignStep, s, fs).value.input == s.input
    decreases Remaining(s)
  {
    if Ended(s) {
      fs := [];
    } else {
      var e := AwakeEvent(s);
      var t := Apply(s, e);
      BenignInvStep(s, e);
      RemainingStep(s, e);
      RemainingNonNegative(s);
      RemainingNonNegative(t);
      ConstantStep(s, e);
      var gs := AwakeEnds(t);
      ExecConcat(BenignStep, s, [e], gs);
      fs := [e] + gs;
    }
  }

  /**
   After any failure-free run both processes can still end, with the whole file copied and exit code 1,
   if and only if the child is not already asleep behind its last block.
   */
  lemma EndsIffAwake(s: State, es: seq<Event>)
    requires BenignInit(s) && Exec(BenignStep, s, es).Some?
    ensures !Asleep(Exec(BenignStep, s, es).value) <==>
              exists fs :: Exec(BenignStep, s, es + fs).Some? && Ended(Exec(BenignStep, s, es + fs).value)
  {
    BenignRun(s, es);
    var t := Exec(BenignStep, s, es).value;
    if !Asleep(t) {
      var fs := AwakeEnds(t);
      ExecConcat(BenignStep, s, es, fs);
    } else if fs :| Exec(BenignStep, s, es + fs).Some? && Ended(Exec(BenignStep, s, es + fs).value) {
      ExecConcat(BenignStep, s, es, fs);
      AsleepForever(t, fs);
    }
  }

  /** For every file there is a run that ends. */
  lemma EveryCopyCanEnd(s: State) returns (es: seq<Event>)
    requires BenignInit(s)
    ensures Exec(BenignStep, s, es).Some?
    ensures var t := Exec(BenignStep, s, es).value;
            t.output == s.input && t.child.main == Left(1) && t.parent.main == ParentGone
  {
    BenignRun(s, []);
    es := AwakeEnds(s);
  }

  /** Just before the end of the input is stored, the child can test its condition, and sleeps for ever. */
  lemma TestTooEarly(s: State)
    requires BenignInv(s) && s.parent.handler.Ending? && s.child.main == Seeding && s.child.handler == ConsumerIdle
    requires s.child.queue == [] && s.child.seeded == CHUNKS
    ensures BenignStep(s, ChildCheck).Some? && Asleep(Apply(s, ChildCheck))
  {
    assert InFlight(s) == [];
  }

  lemma {:induction false} SleepsFrom(s: State) returns (fs: seq<Event>)
    requires BenignInv(s) && s.child.main == Seeding && s.shared.producerEnded == NotEnded
    ensures Exec(BenignStep, s, fs).Some? && BenignInv(Exec(BenignStep, s, fs).value)
    ensures Asleep(Exec(BenignStep, s, fs).value)
    decreases Remaining(s)
  {
    if AtRest(s) { RestMeansDelivered(s); }
    var e := BusyEvent(s);
    if e == StoreEnd {
      TestTooEarly(s);
      BenignInvStep(s, ChildCheck);
      fs := [ChildCheck];
    } else {
      var t := Apply(s, e);
      BenignInvStep(s, e);
      RemainingStep(s, e);
      RemainingNonNegative(s);
      RemainingNonNegative(t);
      BusyKeepsSeeding(s, e);
      var gs := SleepsFrom(t);
      ExecConcat(BenignStep, s, [e], gs);
      fs := [e] + gs;
    }
  }

  lemma BusyKeepsSeeding(s: State, e: Event)
    requires BenignInv(s) && s.child.main == Seeding && s.shared.producerEnded == NotEnded
    requires Benign(s, e) && Enabled(s, e) && !OfMain(e) && e != StoreEnd
    ensures var t := Apply(s, e); t.child.main == Seeding && t.shared.producerEnded == NotEnded
  {
    if s.parent.queue != [] { Apart(s, s.parent.queue[0]); }
    if s.child.queue != [] { Apart(s, s.child.queue[0]); }
  }

  /** And for every file there is a run without failures in which neither process ever ends. */
  lemma EveryCopyCanHang(s: State) returns (es: seq<Event>)
    requires BenignInit(s)
    ensures Exec(BenignStep, s, es).Some?
    ensures forall fs :: Exec(BenignStep, s, es + fs).Some? ==>
              var t := Exec(BenignStep, s, es + fs).value; t.child.main == ChildPaused && t.parent.main != ParentGone
  {
    BenignRun(s, []);
    es := SleepsFrom(s);
    var u := Exec(BenignStep, s, es).value;
    forall fs | Exec(BenignStep, s, es + fs).Some?
      ensures var t := Exec(BenignStep, s, es + fs).value; t.child.main == ChildPaused && t.parent.main != ParentGone
    {
      ExecConcat(BenignStep, s, es, fs);
      AsleepForever(u, fs);
      BenignRun(s, es + fs);
    }
  }

  /**
   A failure-free run in which nothing more can happen has copied the file; both processes have ended if
   the child tested its condition after the end was stored, and otherwise the parent waits for ever for a
   child that sleeps.
   */
  lemma MaximalRunsEndIff(s: State, es: seq<Event>)
    requires BenignInit(s) && Exec(BenignStep, s, es).Some?
    requires forall e :: BenignStep(Exec(BenignStep, s, es).value, e) == None
    ensures var t := Exec(BenignStep, s, es).value;
            if ChildSawEnd(es) then Ended(t) else Hangs(t)
  {
    MaximalRunsDeliver(s, es);
    BenignRunIsRun(s, es);
    HowTheyEnd(s, es);
    NoSeedFails(s, es);
  }

  lemma NoFailedSeed(s: State, e: Event)
    requires BenignStep(s, e).Some?
    ensures e != Seed(false)
  {}

  lemma {:induction false} NoSeedFailsAt(s: State, es: seq<Event>, i: nat)
    requires Exec(BenignStep, s, es).Some? && i < |es|
    ensures es[i] != Seed(false)
    decreases |es|
  {
    var fs := es[..|es| - 1];
    if i == |es| - 1 { NoFailedSeed(Exec(BenignStep, s, fs).value, es[i]); } else { NoSeedFailsAt(s, fs, i); }
  }

  lemma NoSeedFails(s: State, es: seq<Event>)
    requires Exec(BenignStep, s, es).Some?
    ensures !SeedFailed(es)
  {
    forall i | 0 <= i < |es| ensures es[i] != Seed(false) { NoSeedFailsAt(s, es, i); }
  }
}
