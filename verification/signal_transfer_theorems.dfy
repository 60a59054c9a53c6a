/** What the signal-driven copy guarantees over whole runs. */
module SignalTransferTheorems {
  import opened Runs
  import opened SignalTransfer
  import opened SignalTransferProofs

  /** The failures that cost data: a block that could not be announced, a failed write. */
  predicate Lossy(e: Event) { e == Publish(false) || e == Write(-1) }

  predicate Lossless(es: seq<Event>) { forall e :: e in es ==> !Lossy(e) }

  lemma LossStep(s: State, e: Event)
    requires ChildEnded(s) && Enabled(s, e)
    requires s.parent.handler.Holding? ==> 0 < s.parent.handler.size
    ensures var t := Apply(s, e);
            && s.lost <= t.lost
            && (Lossy(e) ==> 0 < t.lost)
            && (!Lossy(e) && s.lost == 0 && !s.child.ignored ==>
              t.child.main.Left? || (t.lost == 0 && !t.child.ignored))
            && (t.output != s.output ==> e.Write? && t.lost == s.lost && !s.child.main.Left?)
            && (s.child.main.Left? ==> t.child.main.Left?)
            && (s.child.ignored ==> t.child.ignored)
  {}

  lemma {:induction false} LossHistory(s: State, es: seq<Event>)
    requires Init(s) && Exec(Step, s, es).Some?
    ensures var t := Exec(Step, s, es).value;
            && (!Lossless(es) ==> 0 < t.lost)
            && (Lossless(es) ==> t.child.main.Left? || (t.lost == 0 && !t.child.ignored))
    decreases |es|
  {
    if es != [] {
      var fs, e := es[..|es| - 1], es[|es| - 1];
      assert es == fs + [e];
      LossHistory(s, fs);
      InvRun(s, fs);
      LossStep(Exec(Step, s, fs).value, e);
    }
  }

  lemma ConstantStep(s: State, e: Event)
    requires Enabled(s, e)
    ensures Apply(s, e).input == s.input && Apply(s, e).shared.fileSize == s.shared.fileSize
  {}

  lemma {:induction false} Constant(s: State, es: seq<Event>)
    requires Exec(Step, s, es).Some?
    ensures var t := Exec(Step, s, es).value; t.input == s.input && t.shared.fileSize == s.shared.fileSize
    decreases |es|
  {
    if es != [] {
      Constant(s, es[..|es| - 1]);
      ConstantStep(Exec(Step, s, es[..|es| - 1]).value, es[|es| - 1]);
    }
  }

  /** When the child may leave after a reported success, nothing is in flight. */
  lemma NothingInFlight(t: State)
    requires Inv(t) && Enabled(t, ChildCheck) && t.shared.producerEnded == ProdSucc
    ensures t.shared.fileSize <= |t.input|
    ensures t.output == t.input[..t.shared.fileSize] <==> t.lost == 0
  {
    assert InFlight(t) == [];
    assert t.output + InFlight(t) == t.output;
  }

  /**
   When the child leaves its loop because the producer reported success, its output is the first
   file_size bytes of the input exactly when no announcement and no write failed on the way; this
   holds for every interleaving, every read length and every file_size.
   */
  lemma LeavesWithWholeFile(s: State, es: seq<Event>)
    requires Init(s) && Exec(Step, s, es).Some?
    requires var t := Exec(Step, s, es).value; Enabled(t, ChildCheck) && t.shared.producerEnded == ProdSucc
    ensures s.shared.fileSize <= |s.input|
    ensures Exec(Step, s, es).value.output == s.input[..s.shared.fileSize] <==> Lossless(es)
  {
    var t := Exec(Step, s, es).value;
    InvRun(s, es);
    Constant(s, es);
    LossHistory(s, es);
    NothingInFlight(t);
  }

  /** Once the child has left its loop the output is final. */
  lemma OutputIsFinal(s: State, es: seq<Event>, fs: seq<Event>)
    requires Init(s) && Exec(Step, s, es).Some? && Exec(Step, s, es + fs).Some?
    requires Exec(Step, s, es).value.child.main.Left?
    ensures Exec(Step, s, es + fs).value.output == Exec(Step, s, es).value.output
  {
    var t := Exec(Step, s, es).value;
    InvRun(s, es);
    ExecConcat(Step, s, es, fs);
    var inv := (u: State) => Inv(u) && u.child.main.Left? && u.output == t.output;
    forall u, e | inv(u) && Step(u, e).Some? ensures inv(Step(u, e).value) {
      InvStep(u, e);
      LossStep(u, e);
    }
    Invariance(Step, inv, t, fs);
  }

  predicate Prefix(s: State) {
    s.output <= s.input && (0 < s.lost ==> s.child.ignored || s.child.main.Left?)
  }

  lemma PrefixStep(s: State, e: Event)
    requires Flow(s) && ChildEnded(s) && Prefix(s) && Enabled(s, e) && e != Publish(false)
    requires Flow(Apply(s, e))
    ensures Prefix(Apply(s, e))
  {
    LossStep(s, e);
    ConstantStep(s, e);
    var t := Apply(s, e);
    if t.lost == 0 {
      assert t.output <= t.output + InFlight(t);
    }
  }

  /** While every announcement succeeds the output is a prefix of the input in every reachable state. */
  lemma {:induction false} OutputIsPrefix(s: State, es: seq<Event>)
    requires Init(s) && Exec(Step, s, es).Some? && Publish(false) !in es
    ensures Prefix(Exec(Step, s, es).value)
    decreases |es|
  {
    if es != [] {
      var fs, e := es[..|es| - 1], es[|es| - 1];
      OutputIsPrefix(s, fs);
      InvRun(s, fs);
      InvRun(s, es);
      PrefixStep(Exec(Step, s, fs).value, e);
    }
  }

  /** The exit code of the child is 1 in every run: only SIG_EXIT stores CONS_END_SUCC, and nothing sends it. */
  lemma ExitCodeIsOne(s: State, es: seq<Event>)
    requires Init(s) && Exec(Step, s, es).Some?
    ensures var c := Exec(Step, s, es).value.child.main; c.Left? ==> c.exitCode == 1
  {
    InvRun(s, es);
  }

  /**
   In every reachable state each of the eight slot numbers is in exactly one place, a queue holds at
   most eight signals, and only valid slot numbers are ever delivered.
   */
  lemma SlotsAreOwnedOnce(s: State, es: seq<Event>)
    requires Init(s) && Exec(Step, s, es).Some?
    ensures var t := Exec(Step, s, es).value;
            && (forall c :: Places(t, c) == if IsChunk(c) then 1 else 0)
            && |t.parent.queue| <= CHUNKS && |t.child.queue| <= CHUNKS
            && (Enabled(t, ProducerDeliver) ==> IsChunk(t.parent.queue[0]))
            && (Enabled(t, ConsumerDeliver) ==> IsChunk(t.child.queue[0]))
  {
    InvRun(s, es);
    var t := Exec(Step, s, es).value;
    QueueBound(t);
    if t.parent.queue != [] { Apart(t, t.parent.queue[0]); }
    if t.child.queue != [] { Apart(t, t.child.queue[0]); }
  }

  /** A read never touches a block that waits in the consumer queue or is being written out. */
  lemma NoSlotIsOverwritten(s: State, es: seq<Event>, n: int, d: int)
    requires Init(s) && Exec(Step, s, es).Some?
    requires var t := Exec(Step, s, es).value;
             Enabled(t, Read(n)) && (d in t.child.queue || (t.child.handler.Writing? && d == t.child.handler.chunk))
    ensures var t := Exec(Step, s, es).value;
            IsChunk(d) && Apply(t, Read(n)).shared.mem[d] == t.shared.mem[d]
            && Apply(t, Read(n)).shared.sizes == t.shared.sizes
  {
    InvRun(s, es);
    Apart(Exec(Step, s, es).value, d);
  }

  function Seeds(k: nat): seq<Event> { seq(k, i => Seed(true)) }

  /** The state after k slot numbers were sent and none was taken. */
  function Seeded(s: State, k: nat): State {
    s.(parent := s.parent.(queue := seq(k, i => i)), child := s.child.(seeded := k))
  }

  lemma SeedNext(s: State, k: nat)
    requires Init(s) && k < CHUNKS
    ensures Enabled(Seeded(s, k), Seed(true)) && Apply(Seeded(s, k), Seed(true)) == Seeded(s, k + 1)
  {
    assert seq(k + 1, i => i) == seq(k, i => i) + [k];
  }

  lemma {:induction false} AfterSeeding(s: State, k: nat)
    requires Init(s) && k <= CHUNKS
    ensures Exec(Step, s, Seeds(k)) == Some(Seeded(s, k))
  {
    if k == 0 {
      assert seq(0, i => i) == s.parent.queue;
    } else {
      AfterSeeding(s, k - 1);
      SeedNext(s, k - 1);
      assert Seeds(k) == Seeds(k - 1) + [Seed(true)];
      Extend(s, Seeds(k - 1), Seeded(s, k - 1), Seed(true), Seeded(s, k));
    }
  }

  lemma Follow(s: State, es: seq<Event>, t: State, e: Event) returns (u: State, fs: seq<Event>)
    requires Exec(Step, s, es) == Some(t) && Enabled(t, e)
    ensures u == Apply(t, e) && fs == es + [e] && Exec(Step, s, fs) == Some(u) && WellFormed(u)
  {
    u, fs := Apply(t, e), es + [e];
    Extend(s, es, t, e, u);
  }

  /** The only block is read and its announcement fails. */
  lemma FirstBlockDropped(s: State, es: seq<Event>, t: State) returns (u: State, fs: seq<Event>)
    requires Exec(Step, s, es) == Some(t) && WellFormed(t) && Enabled(t, ProducerDeliver) && |t.input| == 1
             && t.pos == 0
    requires IsChunk(t.parent.queue[0]) && t.shared.bytesRead < t.shared.fileSize
    ensures fs == es + [ProducerDeliver] + [Read(1)] + [Publish(false)]
    ensures Exec(Step, s, fs) == Some(u) && WellFormed(u) && u.child == t.child && u.output == t.output
    ensures u.pos == 1 && u.input == t.input && u.shared.bytesRead == t.shared.bytesRead + 1
    ensures u.shared.fileSize == t.shared.fileSize
    ensures u.parent.handler == ProducerIdle && u.parent.queue == t.parent.queue[1..]
    ensures !u.parent.ignored && u.parent.main == ParentResumes(t.parent.main)
  {
    u, fs := Follow(s, es, t, ProducerDeliver);
    u, fs := Follow(s, fs, u, Read(1));
    u, fs := Follow(s, fs, u, Publish(false));
  }

  /**
   Success can be reported for an incomplete copy: after an announcement fails, the next handler
   replaces PROD_END_FAIL by PROD_END_SUCC, and the child leaves with an empty output.
   */
  lemma DroppedBlockReportedAsSuccess() returns (s: State, es: seq<Event>)
    ensures Init(s) && s.shared.fileSize == |s.input| == 1
    ensures es == Seeds(CHUNKS)
                  + [ProducerDeliver] + [Read(1)] + [Publish(false)] + [ProducerDeliver] + [Read(0)] + [StoreEnd]
    ensures Exec(Step, s, es).Some?
    ensures var t := Exec(Step, s, es).value;
            Enabled(t, ChildCheck) && t.shared.producerEnded == ProdSucc && t.output == []
  {
    var mem := seq(CHUNKS, i => seq(CHUNK_SIZE, j => 0));
    s := State([7], 0, [], Shared(mem, seq(CHUNKS, i => 0), 1, 0, 0, NotEnded, NotEnded),
               ParentProcess(ParentChecks, ProducerIdle, [], false),
               ChildProcess(Seeding, ConsumerIdle, [], false, 0), [], 0);
    es := Seeds(CHUNKS);
    AfterSeeding(s, CHUNKS);
    var t := Exec(Step, s, es).value;
    t, es := FirstBlockDropped(s, es, t);
    t, es := Follow(s, es, t, ProducerDeliver);
    t, es := Follow(s, es, t, Read(0));
    t, es := Follow(s, es, t, StoreEnd);
  }
}
