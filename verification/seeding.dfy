/** The child's loop that sends the eight slot numbers, with handlers of both processes running in between. */
module Seeding {
  import opened Runs
  import opened SignalTransfer
  import opened SignalHandlers

  /**
   What happens before a slot number is sent: whether the parent gets a signal first, the results of the
   calls of the handlers, those of the consumer by the number of signals waiting, and then the one of sigqueue.
   */
  datatype Turn = Turn(parentRuns: bool, offered: nat -> int, announced: bool,
                       taken: nat -> nat -> int, returned: nat -> bool, sent: bool)

  /** The child has sent i numbers and no handler runs. */
  ghost predicate Between(d: SharedData, s0: State, es: seq<Event>, i: nat)
    reads d, d.buffer, d.chunkSizes, d.producerChunks, d.consumerChunks
  {
    && d.Valid() && d.Reached(s0, es) && d.parent.handler == ProducerIdle
    && d.child.main == ChildMain.Seeding && d.child.seeded == i && d.child.handler == ConsumerIdle
  }

  lemma Joined(s0: State, es: seq<Event>, s: State, fs: seq<Event>)
    requires Exec(Step, s0, es) == Some(s)
    ensures Exec(Step, s0, es + fs) == Exec(Step, s, fs)
  {
    ExecConcat(Step, s0, es, fs);
  }

  /** The parent handles one SIG_PRODUCER if one waits for it. */
  method LetParentRun(d: SharedData, turn: Turn, ghost s0: State, ghost past: seq<Event>, ghost i: nat)
    returns (ghost es: seq<Event>)
    requires Between(d, s0, past, i)
    modifies d, d.buffer, d.chunkSizes
    ensures Between(d, s0, es, i)
  {
    es := past;
    if turn.parentRuns && d.parent.queue != [] && !d.parent.ignored && d.parent.main != ParentGone {
      ghost var s := d.Snapshot();
      es := d.ProducerHandler(turn.offered, turn.announced);
      Joined(s0, past, s, es);
      es := past + es;
    }
  }

  /** The signals that wait for the child are delivered before its main program goes on. */
  method DeliverWaiting(d: SharedData, turn: Turn, ghost settled: nat, ghost s0: State, ghost past: seq<Event>,
                        ghost i: nat)
    returns (ghost es: seq<Event>)
    requires Between(d, s0, past, i)
    requires forall q, k :: settled <= k ==> turn.taken(q)(k) != 0
    modifies d
    ensures Between(d, s0, es, i) && ChildRuns(d.Snapshot())
  {
    es := past;
    while d.child.queue != [] && !d.child.ignored
      invariant Between(d, s0, es, i)
      decreases |d.child.queue|
    {
      ghost var s := d.Snapshot();
      var waiting := |d.child.queue|;
      ghost var fs := d.ConsumerHandler(turn.taken(waiting), settled, turn.returned(waiting));
      Joined(s0, es, s, fs);
      es := es + fs;
    }
  }

  method SendNumber(d: SharedData, i: nat, sent: bool, ghost s0: State, ghost past: seq<Event>)
    returns (ghost es: seq<Event>)
    requires Between(d, s0, past, i) && i < CHUNKS && ChildRuns(d.Snapshot())
    modifies d`child, d`parent, d`retired
    ensures es == past + [Seed(sent)] && d.Reached(s0, es)
    ensures if sent then Between(d, s0, es, i + 1) else d.child.main == Left(1)
  {
    ghost var s := d.Snapshot();
    d.SeedSlot(i, sent);
    Extend(s0, past, s, Seed(sent), d.Snapshot());
    es := past + [Seed(sent)];
  }

  /** The child has exited with code 1. */
  ghost predicate GaveUp(d: SharedData, s0: State, es: seq<Event>)
    reads d, d.buffer, d.chunkSizes
  {
    d.Reached(s0, es) && d.child.main == Left(1)
  }

  method TakeTurn(d: SharedData, turn: Turn, ghost settled: nat, i: nat, ghost s0: State, ghost past: seq<Event>)
    returns (ghost es: seq<Event>)
    requires Between(d, s0, past, i) && i < CHUNKS
    requires forall q, k :: settled <= k ==> turn.taken(q)(k) != 0
    modifies d, d.buffer, d.chunkSizes
    ensures if turn.sent then Between(d, s0, es, i + 1) else GaveUp(d, s0, es)
  {
    es := LetParentRun(d, turn, s0, past, i);
    es := DeliverWaiting(d, turn, settled, s0, es, i);
    es := SendNumber(d, i, turn.sent, s0, es);
  }

  /** The seeding loop: all eight numbers are sent, or the child exits with code 1 at the first that fails. */
  method SeedProducer(d: SharedData, turns: nat -> Turn, ghost settled: nat, ghost s0: State)
    returns (ok: bool, ghost es: seq<Event>)
    requires Between(d, s0, [], 0)
    requires forall i, q, k :: settled <= k ==> turns(i).taken(q)(k) != 0
    modifies d, d.buffer, d.chunkSizes
    ensures ok <==> forall i :: 0 <= i < CHUNKS ==> turns(i).sent
    ensures if ok then Between(d, s0, es, CHUNKS) else GaveUp(d, s0, es)
  {
    es := [];
    for i := 0 to CHUNKS
      invariant Between(d, s0, es, i)
      invariant forall j :: 0 <= j < i ==> turns(j).sent
    {
      es := TakeTurn(d, turns(i), settled, i, s0, es);
      if !turns(i).sent {
        return false, es;
      }
    }
    ok := true;
  }
}
