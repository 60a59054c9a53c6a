/**
 The shared structure and the two handlers as they are written: loops over an in-place buffer.  Each
 method is one uninterrupted execution and is proved to be a run of the events of SignalTransfer.
 */
module SignalHandlers {
  import opened Runs
  import opened Sequences
  import opened SignalTransfer

  /** The buffer seen as slots: slot i is the i-th CHUNK_SIZE bytes. */
  function SlotsOf(m: seq<byte>): (r: seq<seq<byte>>)
    ensures |m| == SHM_SIZE ==> IsMemory(r)
  {
    seq(CHUNKS, i requires 0 <= i < CHUNKS => SlotOf(m, i))
  }

  function SlotOf(m: seq<byte>, i: nat): (r: seq<byte>)
    ensures |m| == SHM_SIZE && i < CHUNKS ==> |r| == CHUNK_SIZE
  {
    if i * CHUNK_SIZE + CHUNK_SIZE <= |m| then m[i * CHUNK_SIZE..i * CHUNK_SIZE + CHUNK_SIZE] else []
  }

  /** m' is m with data stored at `start`. */
  predicate StoredAt(m: seq<byte>, m': seq<byte>, start: nat, data: seq<byte>) {
    && |m'| == |m| && start + |data| <= |m|
    && (forall i :: 0 <= i < |data| ==> m'[start + i] == data[i])
    && (forall i :: 0 <= i < |m| ==> i < start || start + |data| <= i ==> m'[i] == m[i])
  }

  lemma RangeStored(m: seq<byte>, m': seq<byte>, start: nat, data: seq<byte>, size: nat)
    requires StoredAt(m, m', start, data) && |data| <= size && start + size <= |m|
    ensures m'[start..start + size] == data + m[start..start + size][|data|..]
  {
    var want := data + m[start..start + size][|data|..];
    forall i | 0 <= i < size ensures m'[start..start + size][i] == want[i] {
      if i < |data| { assert m'[start + i] == data[i]; } else { assert m'[start + i] == m[start + i]; }
    }
  }

  lemma RangeKept(m: seq<byte>, m': seq<byte>, start: nat, data: seq<byte>, lo: nat, size: nat)
    requires StoredAt(m, m', start, data) && |data| <= size && lo + size <= |m|
    requires lo + size <= start || start + size <= lo
    ensures m'[lo..lo + size] == m[lo..lo + size]
  {
    var a, b := m'[lo..lo + size], m[lo..lo + size];
    forall i | 0 <= i < size ensures a[i] == b[i] {
      assert m'[lo + i] == m[lo + i];
    }
  }

  lemma SlotOrder(c: nat, d: nat)
    requires c < d
    ensures c * CHUNK_SIZE + CHUNK_SIZE <= d * CHUNK_SIZE
  {}

  lemma SlotAt(m: seq<byte>, c: nat)
    requires |m| == SHM_SIZE && c < CHUNKS
    ensures c * CHUNK_SIZE + CHUNK_SIZE <= |m|
    ensures SlotsOf(m)[c] == SlotOf(m, c) == m[c * CHUNK_SIZE..c * CHUNK_SIZE + CHUNK_SIZE]
  {}

  lemma SlotStored(m: seq<byte>, m': seq<byte>, c: nat, data: seq<byte>)
    requires |m| == SHM_SIZE && c < CHUNKS && |data| <= CHUNK_SIZE && StoredAt(m, m', c * CHUNK_SIZE, data)
    ensures SlotOf(m', c) == data + SlotOf(m, c)[|data|..]
  {
    SlotAt(m, c);
    SlotAt(m', c);
    RangeStored(m, m', c * CHUNK_SIZE, data, CHUNK_SIZE);
  }

  lemma SlotKept(m: seq<byte>, m': seq<byte>, c: nat, data: seq<byte>, d: nat)
    requires |m| == SHM_SIZE && c < CHUNKS && |data| <= CHUNK_SIZE && StoredAt(m, m', c * CHUNK_SIZE, data)
    requires d < CHUNKS && d != c
    ensures SlotOf(m', d) == SlotOf(m, d)
  {
    if c < d { SlotOrder(c, d); } else { SlotOrder(d, c); }
    SlotAt(m, d);
    RangeOfSlot(m, m', d, d * CHUNK_SIZE, c * CHUNK_SIZE, data);
  }

  lemma RangeOfSlot(m: seq<byte>, m': seq<byte>, d: nat, lo: nat, start: nat, data: seq<byte>)
    requires |m| == SHM_SIZE && d < CHUNKS && lo == d * CHUNK_SIZE && lo + CHUNK_SIZE <= |m|
    requires |data| <= CHUNK_SIZE && StoredAt(m, m', start, data)
             && (lo + CHUNK_SIZE <= start || start + CHUNK_SIZE <= lo)
    ensures SlotOf(m', d) == SlotOf(m, d)
  {
    RangeKept(m, m', start, data, lo, CHUNK_SIZE);
  }

  /** Storing inside slot c changes slot c as Store does, and no other slot. */
  lemma SlotsAreDisjoint(m: seq<byte>, m': seq<byte>, c: nat, data: seq<byte>)
    requires |m| == SHM_SIZE && c < CHUNKS && |data| <= CHUNK_SIZE
    requires StoredAt(m, m', c * CHUNK_SIZE, data)
    ensures SlotsOf(m') == Store(SlotsOf(m), c, data)
  {
    forall d | 0 <= d < CHUNKS ensures SlotsOf(m')[d] == Store(SlotsOf(m), c, data)[d] {
      if d == c { SlotStored(m, m', c, data); } else { SlotKept(m, m', c, data, d); }
    }
  }

  method StoreBytes(buffer: array<byte>, start: nat, data: seq<byte>)
    requires start + |data| <= buffer.Length
    modifies buffer
    ensures StoredAt(old(buffer[..]), buffer[..], start, data)
  {
    forall i | 0 <= i < |data| { buffer[start + i] := data[i]; }
  }

  method FillSlot(buffer: array<byte>, start: nat, c: nat, data: seq<byte>)
    requires buffer.Length == SHM_SIZE && c < CHUNKS && start == c * CHUNK_SIZE && |data| <= CHUNK_SIZE
    modifies buffer
    ensures SlotsOf(buffer[..]) == Store(SlotsOf(old(buffer[..])), c, data)
  {
    StoreBytes(buffer, start, data);
    SlotsAreDisjoint(old(buffer[..]), buffer[..], c, data);
  }

  lemma PrefixRange<T>(s: seq<T>, total: nat, w: nat, n: nat)
    requires w + n <= total <= |s|
    ensures s[..total][w..w + n] == s[w..w + n]
  {
    Subrange(s, 0, total, w, n);
  }

  /** Addressing the block through its offset in the buffer. */
  lemma PartOfBlock(m: seq<byte>, c: nat, total: nat, w: nat, n: nat)
    requires |m| == SHM_SIZE && c < CHUNKS && total <= CHUNK_SIZE && w + n <= total
    ensures Block(SlotsOf(m), c, total)[w..w + n] == m[c * CHUNK_SIZE + w..c * CHUNK_SIZE + w + n]
  {
    SlotAt(m, c);
    PrefixRange(SlotOf(m, c), total, w, n);
    Subrange(m, c * CHUNK_SIZE, CHUNK_SIZE, w, n);
  }

  class SharedData {
    const input: seq<byte>
    var pos: nat
    var output: seq<byte>

    const buffer: array<byte>
    const producerChunks: array<nat>   // offsets into buffer
    const consumerChunks: array<nat>
    const chunkSizes: array<nat>

    const fileSize: nat
    var bytesRead: nat
    var attempts: nat
    var producerEnded: EndCode
    var consumerEnded: EndCode

    // What the system keeps for each process: main loop, running handler, pending signals, action.
    var parent: ParentProcess
    var child: ChildProcess

    ghost var retired: seq<int>
    ghost var lost: nat

    /** The slot layout fixed by init_shared_memory. */
    ghost predicate Valid()
      reads producerChunks, consumerChunks
    {
      && buffer.Length == SHM_SIZE && producerChunks.Length == consumerChunks.Length == chunkSizes.Length == CHUNKS
      && producerChunks != consumerChunks && producerChunks != chunkSizes && consumerChunks != chunkSizes
      && forall i :: 0 <= i < CHUNKS ==> producerChunks[i] == consumerChunks[i] == i * CHUNK_SIZE
    }

    ghost function Snapshot(): State
      reads this, buffer, chunkSizes
    {
      State(input, pos, output,
            Shared(SlotsOf(buffer[..]), chunkSizes[..], fileSize, bytesRead, attempts, producerEnded, consumerEnded),
            parent, child, retired, lost)
    }

    /** The events es lead from s0 to the present state. */
    ghost predicate Reached(s0: State, es: seq<Event>)
      reads this, buffer, chunkSizes
    {
      Exec(Step, s0, es) == Some(Snapshot()) && WellFormed(Snapshot())
    }

    /** init_shared_memory: slot i is the i-th CHUNK_SIZE bytes for both sides. */
    constructor (input: seq<byte>, fileSize: nat)
      ensures Valid() && Init(Snapshot())
      ensures this.input == input && this.fileSize == fileSize
      ensures fresh(buffer) && fresh(producerChunks) && fresh(consumerChunks) && fresh(chunkSizes)
    {
      this.input, this.fileSize := input, fileSize;
      pos, output, bytesRead, attempts := 0, [], 0, 0;
      producerEnded, consumerEnded := NotEnded, NotEnded;
      parent := ParentProcess(ParentChecks, ProducerIdle, [], false);
      child := ChildProcess(Seeding, ConsumerIdle, [], false, 0);
      retired, lost := [], 0;
      buffer := new byte[SHM_SIZE];
      producerChunks := new nat[CHUNKS];
      consumerChunks := new nat[CHUNKS];
      chunkSizes := new nat[CHUNKS];
      new;
      for i := 0 to CHUNKS
        invariant forall j :: 0 <= j < i ==>
                    producerChunks[j] == consumerChunks[j] == j * CHUNK_SIZE && chunkSizes[j] == 0
        invariant fresh(producerChunks) && fresh(consumerChunks) && fresh(chunkSizes) && fresh(buffer)
        modifies producerChunks, consumerChunks, chunkSizes
      {
        producerChunks[i] := i * CHUNK_SIZE;
        consumerChunks[i] := i * CHUNK_SIZE;
        chunkSizes[i] := 0;
      }
      assert chunkSizes[..] == seq(CHUNKS, i => 0);
    }

    /** read(fd_in, chunk, CHUNK_SIZE) when the system has `offered` bytes ready; -1: it fails. */
    method ReadChunk(c: int, offered: int) returns (n: int)
      requires Valid() && IsChunk(c) && pos <= |input|
      modifies this`pos, buffer
      ensures -1 <= n <= CHUNK_SIZE && n <= |input| - old(pos)
      ensures if n <= 0 then pos == old(pos) && buffer[..] == old(buffer[..])
              else pos == old(pos) + n
                   && SlotsOf(buffer[..]) == Store(SlotsOf(old(buffer[..])), c, input[old(pos)..old(pos) + n])
      ensures offered < 0 ==> n == -1
      ensures 0 <= offered ==> n == offered || (n < offered && (n == CHUNK_SIZE || n == |input| - old(pos)))
    {
      if offered < 0 { return -1; }
      n := offered;
      if CHUNK_SIZE < n { n := CHUNK_SIZE; }
      if |input| - pos < n { n := |input| - pos; }
      if 0 < n {
        FillSlot(buffer, producerChunks[c], c, input[pos..pos + n]);
        pos := pos + n;
      }
    }

    /** The kernel takes the first SIG_PRODUCER from the queue; ok: the slot number is valid. */
    method TakeProducerSignal() returns (c: int, ok: bool)
      requires parent.queue != []
      modifies this`parent, this`producerEnded, this`retired
      ensures Snapshot() == DeliverProducer(old(Snapshot())) && c == old(parent.queue[0]) && ok == IsChunk(c)
    {
      c := parent.queue[0];
      parent := parent.(queue := parent.queue[1..]);
      ok := 0 <= c < CHUNKS;
      if ok {
        parent := parent.(handler := Reading(c));
      } else {
        producerEnded := ProdFail;
        retired := retired + [c];
        parent := ProducerDone(parent);
      }
    }

    /** One round of the retry loop: the call, the count, and whether to repeat. */
    method TryRead(c: int, offered: int) returns (n: int, again: bool)
      requires Valid() && parent.handler == Reading(c) && WellFormed(Snapshot())
      modifies this`pos, this`attempts, this`parent, buffer
      ensures Enabled(old(Snapshot()), Read(n)) && Snapshot() == AfterRead(old(Snapshot()), n)
      ensures attempts == old(attempts) + 1
      ensures again <==> n == 0 && bytesRead < fileSize && attempts < MAX_ATTEMPTS - 1
      ensures parent.handler == if 0 < n then Holding(c, n) else if again then Reading(c) else Ending(c)
    {
      n := ReadChunk(c, offered);
      attempts := attempts + 1;
      again := n == 0 && bytesRead < fileSize && attempts < MAX_ATTEMPTS - 1;
      if 0 < n {
        parent := parent.(handler := Holding(c, n));
      } else if !again {
        parent := parent.(handler := Ending(c));
      }
    }

    /** sigqueue(pid, SIG_CONSUMER): discarded when the child ignores the signal or has ended. */
    method SendConsumerSignal(c: int, size: nat)
      modifies this`child, this`retired, this`lost
      ensures Snapshot() == SendToConsumer(old(Snapshot()), c, size) && child == old(child).(queue := child.queue)
    {
      if child.ignored || child.main.Left? {
        retired, lost := retired + [c], lost + size;
      } else {
        child := child.(queue := child.queue + [c]);
      }
    }

    method PublishChunk(c: int, size: nat, sent: bool)
      requires chunkSizes.Length == CHUNKS && parent.handler == Holding(c, size) && Enabled(Snapshot(), Publish(sent))
      modifies this`bytesRead, this`producerEnded, this`retired, this`lost, this`child, this`parent, chunkSizes
      ensures Snapshot() == AfterPublish(old(Snapshot()), sent) && child == old(child).(queue := child.queue)
      ensures parent == ProducerDone(old(parent))
    {
      chunkSizes[c] := size;
      bytesRead := bytesRead + size;
      parent := ProducerDone(parent);
      if sent {
        SendConsumerSignal(c, size);
      } else {
        producerEnded := ProdFail;
        retired, lost := retired + [c], lost + size;
      }
    }

    method StoreEndCode(c: int)
      requires parent.handler == Ending(c)
      modifies this`producerEnded, this`parent
      ensures Snapshot() == AfterStoreEnd(old(Snapshot()))
    {
      producerEnded := if bytesRead == fileSize then ProdSucc else ProdFail;
      parent := parent.(handler := Ignoring(c));
    }

    method IgnoreSigProducer(c: int)
      requires parent.handler == Ignoring(c)
      modifies this`retired, this`parent
      ensures Snapshot() == AfterIgnore(old(Snapshot()))
    {
      retired := retired + [c] + parent.queue;
      parent := ProducerDone(parent).(ignored := true, queue := []);
    }

    /** The read loop. */
    method ReadLoop(c: int, offered: nat -> int, ghost s0: State, ghost past: seq<Event>)
      returns (currSize: int, ghost es: seq<Event>)
      requires Valid() && Reached(s0, past) && parent.handler == Reading(c)
      modifies this`pos, this`attempts, this`parent, buffer
      ensures Reached(s0, es) && past <= es
      ensures parent.handler == if 0 < currSize then Holding(c, currSize) else Ending(c)
    {
      var again := true;
      currSize, es := 0, past;
      while again
        invariant Reached(s0, es) && past <= es
        invariant parent.handler == if again then Reading(c) else if 0 < currSize then Holding(c, currSize)
                  else Ending(c)
        decreases again, MAX_ATTEMPTS - attempts
      {
        ghost var s := Snapshot();
        currSize, again := TryRead(c, offered(attempts));
        Extend(s0, es, s, Read(currSize), Snapshot());
        es := es + [Read(currSize)];
      }
    }

    /** The end of the input or a failed read: the end code, then the signal is ignored. */
    method EndInput(c: int, ghost s0: State, ghost past: seq<Event>) returns (ghost es: seq<Event>)
      requires Reached(s0, past) && parent.handler == Ending(c)
      modifies this`producerEnded, this`retired, this`parent
      ensures Reached(s0, es) && past <= es && parent.handler == ProducerIdle
    {
      ghost var s := Snapshot();
      StoreEndCode(c);
      ghost var t := Snapshot();
      Extend(s0, past, s, StoreEnd, t);
      IgnoreSigProducer(c);
      Extend(s0, past + [StoreEnd], t, IgnoreProducer, Snapshot());
      es := past + [StoreEnd] + [IgnoreProducer];
    }

    /** A SIG_PRODUCER is delivered and producer_handler runs to its end. */
    method ProducerHandler(offered: nat -> int, sent: bool) returns (ghost es: seq<Event>)
      requires Valid() && Enabled(Snapshot(), ProducerDeliver)
      modifies this, buffer, chunkSizes
      ensures Valid() && parent.handler == ProducerIdle && child == old(child).(queue := child.queue)
      ensures Reached(old(Snapshot()), es) && [ProducerDeliver] <= es
    {
      ghost var s0 := Snapshot();
      var c, ok := TakeProducerSignal();
      es := [ProducerDeliver];
      WellFormedStep(s0, ProducerDeliver);
      if !ok { return; }
      var currSize;
      currSize, es := ReadLoop(c, offered, s0, es);
      if 0 < currSize {
        ghost var s := Snapshot();
        PublishChunk(c, currSize, sent);
        Extend(s0, es, s, Publish(sent), Snapshot());
        es := es + [Publish(sent)];
      } else {
        es := EndInput(c, s0, es);
      }
    }

    // ---------- Child ----------

    method TakeConsumerSignal() returns (c: int, ok: bool)
      requires Valid() && child.queue != [] && WellFormed(Snapshot())
      modifies this`child, this`consumerEnded, this`retired
      ensures Snapshot() == DeliverConsumer(old(Snapshot())) && c == old(child.queue[0]) && ok == IsChunk(c)
      ensures var k := old(child).(queue := old(child.queue)[1..]);
              child == if ok then k.(handler := Writing(c, chunkSizes[c], 0)) else ConsumerDone(k)
    {
      c := child.queue[0];
      child := child.(queue := child.queue[1..]);
      ok := 0 <= c < CHUNKS;
      if ok {
        child := child.(handler := Writing(c, chunkSizes[c], 0));
      } else {
        consumerEnded := ConsFail;
        retired := retired + [c];
        child := ConsumerDone(child);
      }
    }

    method FailWrite(c: int, total: nat, written: nat)
      requires child.handler == Writing(c, total, written) && Enabled(Snapshot(), Write(-1))
      modifies this`child, this`consumerEnded, this`retired, this`lost
      ensures Snapshot() == AfterWrite(old(Snapshot()), -1)
      ensures child == ConsumerDone(old(child)).(ignored := true, queue := [])
    {
      lost := lost + (total - written) + QueuedBytes(Snapshot());
      retired := retired + [c] + child.queue;
      consumerEnded := ConsFail;
      child := ConsumerDone(child).(ignored := true, queue := []);
    }

    method TakeBytes(c: int, total: nat, written: nat, n: nat)
      requires Valid() && child.handler == Writing(c, total, written) && Enabled(Snapshot(), Write(n))
      modifies this`output, this`child
      ensures Snapshot() == AfterWrite(old(Snapshot()), n)
      ensures child == old(child).(handler := Writing(c, total, written + n))
    {
      var start := consumerChunks[c] + written;
      PartOfBlock(buffer[..], c, total, written, n);
      output := output + buffer[start..start + n];
      child := child.(handler := Writing(c, total, written + n));
    }

    /** One write of the rest of the block: it fails, or the system takes at most `taken` bytes, maybe none. */
    method WriteSome(c: int, total: nat, written: nat, taken: int) returns (n: int)
      requires Valid() && WellFormed(Snapshot()) && child.handler == Writing(c, total, written) && written < total
      modifies this`output, this`child, this`consumerEnded, this`retired, this`lost
      ensures n == if taken < 0 then -1 else if taken <= total - written then taken else total - written
      ensures Enabled(old(Snapshot()), Write(n)) && Snapshot() == AfterWrite(old(Snapshot()), n)
      ensures child == if n < 0 then ConsumerDone(old(child)).(ignored := true, queue := [])
                       else old(child).(handler := Writing(c, total, written + n))
    {
      n := if taken < 0 then -1 else if taken <= total - written then taken else total - written;
      if n < 0 {
        FailWrite(c, total, written);
      } else {
        TakeBytes(c, total, written, n);
      }
    }

    /** The write loop, begun by a child in state k after the events past, has written this much of the block. */
    ghost predicate HasWritten(s0: State, past: seq<Event>, es: seq<Event>, k: ChildProcess, written: nat)
      reads this, buffer, chunkSizes
    {
      && Reached(s0, es) && past <= es && k.handler.Writing? && written <= k.handler.total
      && child == k.(handler := Writing(k.handler.chunk, k.handler.total, written))
    }

    /** It has stopped at a failing write. */
    ghost predicate HasFailed(s0: State, past: seq<Event>, es: seq<Event>, k: ChildProcess)
      reads this, buffer, chunkSizes
    {
      Reached(s0, es) && past <= es && child == ConsumerDone(k).(ignored := true, queue := [])
    }

    method WriteRound(c: int, total: nat, written: nat, taken: int,
                      ghost s0: State, ghost past: seq<Event>, ghost es: seq<Event>, ghost k: ChildProcess)
      returns (n: int, ghost es': seq<Event>)
      requires Valid() && HasWritten(s0, past, es, k, written) && k.handler == Writing(c, total, 0) && written < total
      modifies this`output, this`child, this`consumerEnded, this`retired, this`lost
      ensures n == if taken < 0 then -1 else if taken <= total - written then taken else total - written
      ensures if n < 0 then HasFailed(s0, past, es', k) else HasWritten(s0, past, es', k, written + n)
    {
      ghost var s := Snapshot();
      n := WriteSome(c, total, written, taken);
      Extend(s0, es, s, Write(n), Snapshot());
      es' := es + [Write(n)];
    }

    /**
     The write loop.  `taken` gives the result of each call; a write of 0 bytes is repeated, so the loop
     ends only if the calls stop returning 0, here from call number `settled` on.
     */
    method WriteBlock(c: int, total: nat, taken: nat -> int, ghost settled: nat, ghost s0: State,
                      ghost past: seq<Event>)
      returns (ok: bool, ghost es: seq<Event>)
      requires Valid() && HasWritten(s0, past, past, child, 0) && child.handler == Writing(c, total, 0)
      requires forall k :: settled <= k ==> taken(k) != 0
      modifies this`output, this`child, this`consumerEnded, this`retired, this`lost
      ensures if ok then HasWritten(s0, past, es, old(child), total) else HasFailed(s0, past, es, old(child))
    {
      es, ok := past, true;
      var written, calls := 0, 0;
      while written < total
        invariant written <= total && HasWritten(s0, past, es, old(child), written)
        decreases if calls < settled then settled - calls else 0, total - written
      {
        var n;
        n, es := WriteRound(c, total, written, taken(calls), s0, past, es, old(child));
        if n < 0 {
          return false, es;
        }
        written, calls := written + n, calls + 1;
      }
    }

    /** sigqueue(ppid, SIG_PRODUCER): discarded when the parent ignores the signal or has ended. */
    method SendProducerSignal(c: int)
      modifies this`parent, this`retired
      ensures Snapshot() == SendToProducer(old(Snapshot()), c)
    {
      if parent.ignored || parent.main == ParentGone {
        retired := retired + [c];
      } else {
        parent := parent.(queue := parent.queue + [c]);
      }
    }

    method ReturnChunk(c: int, sent: bool)
      requires child.handler.Writing? && child.handler.chunk == c
      modifies this`child, this`consumerEnded, this`parent, this`retired
      ensures Snapshot() == AfterReturn(old(Snapshot()), sent) && child == ConsumerDone(old(child))
      ensures parent == old(parent).(queue := parent.queue)
    {
      child := ConsumerDone(child);
      if sent {
        SendProducerSignal(c);
      } else {
        consumerEnded := ConsFail;
        retired := retired + [c];
      }
    }

    method FinishBlock(c: int, sent: bool, ghost s0: State, ghost past: seq<Event>)
      returns (ghost es: seq<Event>)
      requires Reached(s0, past) && child.handler.Writing?
      requires c == child.handler.chunk && child.handler.written == child.handler.total
      modifies this`child, this`consumerEnded, this`parent, this`retired
      ensures Reached(s0, es) && past <= es
      ensures child == ConsumerDone(old(child)) && parent == old(parent).(queue := parent.queue)
    {
      ghost var s := Snapshot();
      ReturnChunk(c, sent);
      Extend(s0, past, s, Return(sent), Snapshot());
      es := past + [Return(sent)];
    }

    /** A SIG_CONSUMER is delivered and consumer_handler runs to its end. */
    method ConsumerHandler(taken: nat -> int, ghost settled: nat, sent: bool) returns (ghost es: seq<Event>)
      requires Valid() && Enabled(Snapshot(), ConsumerDeliver)
      requires forall k :: settled <= k ==> taken(k) != 0
      modifies this
      ensures Valid() && Reached(old(Snapshot()), es) && [ConsumerDeliver] <= es
      ensures child == ConsumerDone(old(child)).(queue := child.queue, ignored := child.ignored)
      ensures |child.queue| < |old(child.queue)| && parent == old(parent).(queue := parent.queue)
    {
      ghost var s0 := Snapshot();
      var c, ok := TakeConsumerSignal();
      es := [ConsumerDeliver];
      WellFormedStep(s0, ConsumerDeliver);
      if !ok { return; }
      ok, es := WriteBlock(c, chunkSizes[c], taken, settled, s0, es);
      if !ok { return; }
      es := FinishBlock(c, sent, s0, es);
    }

    // ---------- Seeding ----------

    /** sigqueue(ppid, SIG_PRODUCER) for slot i, or the exit with code 1 when it fails. */
    method SeedSlot(i: nat, sent: bool)
      requires child.seeded == i
      modifies this`child, this`parent, this`retired
      ensures Snapshot() == AfterSeed(old(Snapshot()), sent)
      ensures child == if sent then old(child).(seeded := i + 1) else old(child).(main := Left(1))
      ensures parent == old(parent).(queue := parent.queue)
    {
      if sent {
        child := child.(seeded := i + 1);
        SendProducerSignal(i);
      } else {
        child := child.(main := Left(1));
      }
    }
  }
}
