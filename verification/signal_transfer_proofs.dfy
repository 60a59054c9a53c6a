/** Every interleaving of signal_transfer.dfy: who owns each slot, and where each byte is. */
module SignalTransferProofs {
  import opened Runs
  import opened Sequences
  import opened SignalTransfer

  // ---------- Slot ownership ----------

  function Occurs(cs: seq<int>, c: int): nat { multiset(cs)[c] }

  function InProducer(p: Producer, c: int): nat { if p != ProducerIdle && p.chunk == c then 1 else 0 }

  function InConsumer(k: Consumer, c: int): nat { if k != ConsumerIdle && k.chunk == c then 1 else 0 }

  /** In how many places slot number c is: not yet announced, in a queue, in a handler, or retired. */
  function Places(s: State, c: int): nat {
    (if s.child.seeded <= c < CHUNKS then 1 else 0) + Occurs(s.parent.queue, c) + InProducer(s.parent.handler, c)
    + Occurs(s.child.queue, c) + InConsumer(s.child.handler, c) + Occurs(s.retired, c)
  }

  ghost predicate Owned(s: State) {
    s.child.seeded <= CHUNKS && forall c :: Places(s, c) == if IsChunk(c) then 1 else 0
  }

  lemma OccursConcat(a: seq<int>, b: seq<int>, c: int)
    ensures Occurs(a + b, c) == Occurs(a, c) + Occurs(b, c)
    ensures Occurs([c], c) == 1
    ensures forall d :: d != c ==> Occurs([d], c) == 0
  {}

  lemma OccursHead(a: seq<int>, c: int)
    requires a != []
    ensures Occurs(a, c) == (if a[0] == c then 1 else 0) + Occurs(a[1..], c)
  {
    assert a == [a[0]] + a[1..];
  }

  lemma PlacesQueue(s: State, c: int)
    requires s.parent.queue != [] && s.parent.handler == ProducerIdle
    ensures Places(DeliverProducer(s), c) == Places(s, c)
  {
    OccursHead(s.parent.queue, c);
    OccursConcat(s.retired, [s.parent.queue[0]], c);
  }

  lemma PlacesDeliver(s: State, c: int)
    requires WellFormed(s) && s.child.queue != [] && s.child.handler == ConsumerIdle
    ensures Places(DeliverConsumer(s), c) == Places(s, c)
  {
    OccursHead(s.child.queue, c);
    OccursConcat(s.retired, [s.child.queue[0]], c);
  }

  lemma PlacesPublish(s: State, ok: bool, c: int)
    requires Enabled(s, Publish(ok))
    ensures Places(AfterPublish(s, ok), c) == Places(s, c)
  {
    OccursConcat(s.retired, [s.parent.handler.chunk], c);
    OccursConcat(s.child.queue, [s.parent.handler.chunk], c);
  }

  lemma PlacesIgnore(s: State, c: int)
    requires s.parent.handler.Ignoring?
    ensures Places(AfterIgnore(s), c) == Places(s, c)
  {
    OccursConcat(s.retired, [s.parent.handler.chunk], c);
    OccursConcat(s.retired + [s.parent.handler.chunk], s.parent.queue, c);
  }

  lemma PlacesSeed(s: State, ok: bool, c: int)
    requires s.child.seeded < CHUNKS
    ensures Places(AfterSeed(s, ok), c) == Places(s, c)
  {
    OccursConcat(s.retired, [s.child.seeded], c);
    OccursConcat(s.parent.queue, [s.child.seeded], c);
  }

  lemma PlacesWrite(s: State, n: int, c: int)
    requires Enabled(s, Write(n))
    ensures Places(AfterWrite(s, n), c) == Places(s, c)
  {
    OccursConcat(s.retired, [s.child.handler.chunk], c);
    OccursConcat(s.retired + [s.child.handler.chunk], s.child.queue, c);
  }

  lemma PlacesReturn(s: State, ok: bool, c: int)
    requires s.child.handler.Writing?
    ensures Places(AfterReturn(s, ok), c) == Places(s, c)
  {
    OccursConcat(s.retired, [s.child.handler.chunk], c);
    OccursConcat(s.parent.queue, [s.child.handler.chunk], c);
  }

  /** No event duplicates or loses a slot number. */
  lemma PlacesConserved(s: State, e: Event, c: int)
    requires Enabled(s, e)
    ensures Places(Apply(s, e), c) == Places(s, c)
  {
    match e
    case ProducerDeliver => PlacesQueue(s, c);
    case ConsumerDeliver => PlacesDeliver(s, c);
    case IgnoreProducer => PlacesIgnore(s, c);
    case Publish(ok) => PlacesPublish(s, ok, c);
    case Seed(ok) => PlacesSeed(s, ok, c);
    case Return(ok) => PlacesReturn(s, ok, c);
    case Write(n) => PlacesWrite(s, n, c);
    case _ =>
  }

  lemma OwnedStep(s: State, e: Event)
    requires Owned(s) && Enabled(s, e)
    ensures Owned(Apply(s, e))
  {
    forall c ensures Places(Apply(s, e), c) == if IsChunk(c) then 1 else 0 { PlacesConserved(s, e, c); }
  }

  lemma NoMoreThan(cs: seq<int>, all: multiset<int>)
    requires forall c :: Occurs(cs, c) <= all[c]
    ensures |cs| <= |all|
  {
    forall c ensures multiset(cs)[c] <= all[c] { assert Occurs(cs, c) <= all[c]; }
    assert all == multiset(cs) + (all - multiset(cs));
  }

  /** A queue holds each slot at most once, so it never holds more than eight. */
  lemma QueueBound(s: State)
    requires Owned(s)
    ensures |s.parent.queue| <= CHUNKS && |s.child.queue| <= CHUNKS
  {
    var all := multiset([0, 1, 2, 3, 4, 5, 6, 7]);
    forall c
      ensures Occurs(s.parent.queue, c) <= all[c] && Occurs(s.child.queue, c) <= all[c]
    {
      assert Places(s, c) <= all[c];
    }
    NoMoreThan(s.parent.queue, all);
    NoMoreThan(s.child.queue, all);
  }

  // ---------- Where every byte is ----------

  predicate Fits(mem: seq<seq<byte>>, sizes: seq<nat>, k: Consumer, cs: seq<int>, p: Producer) {
    && SlotsFit(mem, sizes, cs)
    && (k.Writing? ==> IsChunk(k.chunk) && k.written <= k.total <= CHUNK_SIZE)
    && (p.Holding? ==> IsChunk(p.chunk) && 0 < p.size <= CHUNK_SIZE)
  }

  /** What the consumer handler has still to write of its block. */
  function Tail(mem: seq<seq<byte>>, k: Consumer): seq<byte>
    requires Fits(mem, seq(CHUNKS, i => 0), k, [], ProducerIdle)
  {
    if k.Writing? then Block(mem, k.chunk, k.total)[k.written..] else []
  }

  /** The block the producer handler has read and not yet announced. */
  function Held(mem: seq<seq<byte>>, p: Producer): seq<byte>
    requires Fits(mem, seq(CHUNKS, i => 0), ConsumerIdle, [], p)
  {
    if p.Holding? then Block(mem, p.chunk, p.size) else []
  }

  /** Bytes read but not yet written out, in the order they will be written. */
  function Transit(mem: seq<seq<byte>>, sizes: seq<nat>, k: Consumer, cs: seq<int>, p: Producer): seq<byte>
    requires Fits(mem, sizes, k, cs, p)
  {
    Tail(mem, k) + Queued(mem, sizes, cs) + Held(mem, p)
  }

  lemma TransitRead(mem: seq<seq<byte>>, sizes: seq<nat>, k: Consumer, cs: seq<int>, c: int, data: seq<byte>)
    requires Fits(mem, sizes, k, cs, Reading(c)) && IsChunk(c) && 0 < |data| <= CHUNK_SIZE
    requires c !in cs && (k.Writing? ==> k.chunk != c)
    ensures var mem' := Store(mem, c, data);
            Fits(mem', sizes, k, cs, Holding(c, |data|))
            && Transit(mem', sizes, k, cs, Holding(c, |data|)) == Transit(mem, sizes, k, cs, Reading(c)) + data
  {
    QueuedFrame(mem, sizes, Store(mem, c, data), sizes, cs);
  }

  lemma TransitPublish(mem: seq<seq<byte>>, sizes: seq<nat>, k: Consumer, cs: seq<int>, c: int, n: nat)
    requires Fits(mem, sizes, k, cs, Holding(c, n)) && c !in cs
    ensures Fits(mem, sizes[c := n], k, cs, ProducerIdle) && Fits(mem, sizes[c := n], k, cs + [c], ProducerIdle)
    ensures Transit(mem, sizes[c := n], k, cs + [c], ProducerIdle) == Transit(mem, sizes, k, cs, Holding(c, n))
    ensures |Transit(mem, sizes[c := n], k, cs, ProducerIdle)| + n == |Transit(mem, sizes, k, cs, Holding(c, n))|
  {
    QueuedFrame(mem, sizes, mem, sizes[c := n], cs);
    QueuedAppend(mem, sizes[c := n], cs, c);
    assert Queued(mem, sizes[c := n], [c]) == Block(mem, c, n);
  }

  lemma TransitDeliver(mem: seq<seq<byte>>, sizes: seq<nat>, cs: seq<int>, p: Producer)
    requires cs != [] && Fits(mem, sizes, ConsumerIdle, cs, p)
    ensures var k := Writing(cs[0], sizes[cs[0]], 0);
            Fits(mem, sizes, k, cs[1..], p)
            && Transit(mem, sizes, k, cs[1..], p) == Transit(mem, sizes, ConsumerIdle, cs, p)
  {}

  lemma TailSplits(mem: seq<seq<byte>>, c: int, total: nat, w: nat, n: nat)
    requires IsMemory(mem) && IsChunk(c) && w + n <= total <= CHUNK_SIZE
    ensures Tail(mem, Writing(c, total, w)) == Block(mem, c, total)[w..w + n] + Tail(mem, Writing(c, total, w + n))
  {
    SplitAt(Block(mem, c, total), w, n);
  }

  lemma Regroup<T>(a: seq<T>, b: seq<T>, c: seq<T>, d: seq<T>)
    ensures a + (b + c + d) == a + b + c + d
  {
    Assoc(a, b, c);
    Assoc(a, b + c, d);
  }

  lemma TransitWrite(mem: seq<seq<byte>>, sizes: seq<nat>, c: int, total: nat, w: nat, n: nat, cs: seq<int>,
                     p: Producer)
    requires Fits(mem, sizes, Writing(c, total, w), cs, p) && w + n <= total
    ensures Block(mem, c, total)[w..w + n] + Transit(mem, sizes, Writing(c, total, w + n), cs, p)
         == Transit(mem, sizes, Writing(c, total, w), cs, p)
  {
    TailSplits(mem, c, total, w, n);
    Regroup(Block(mem, c, total)[w..w + n], Tail(mem, Writing(c, total, w + n)), Queued(mem, sizes, cs), Held(mem, p));
  }

  predicate StateFits(s: State) {
    WellFormed(s) && Fits(s.shared.mem, s.shared.sizes, s.child.handler, s.child.queue, s.parent.handler)
  }

  function InFlight(s: State): seq<byte>
    requires StateFits(s)
  {
    Transit(s.shared.mem, s.shared.sizes, s.child.handler, s.child.queue, s.parent.handler)
  }

  function HeldSize(p: Producer): nat { if p.Holding? then p.size else 0 }

  /** Every byte read is written out, in flight or lost; and while none is lost, all are in order. */
  predicate Accounted(input: seq<byte>, pos: nat, output: seq<byte>, flight: seq<byte>, lost: nat) {
    && pos <= |input| && |output| + |flight| + lost == pos
    && (lost == 0 ==> output + flight == input[..pos])
  }

  lemma AccountedRead(input: seq<byte>, pos: nat, output: seq<byte>, flight: seq<byte>, lost: nat, n: nat)
    requires Accounted(input, pos, output, flight, lost) && pos + n <= |input|
    ensures Accounted(input, pos + n, output, flight + input[pos..pos + n], lost)
  {
    SplitAt(input, pos, n);
    Assoc(output, flight, input[pos..pos + n]);
  }

  lemma AccountedWrite(input: seq<byte>, pos: nat, output: seq<byte>, piece: seq<byte>, rest: seq<byte>, lost: nat)
    requires Accounted(input, pos, output, piece + rest, lost)
    ensures Accounted(input, pos, output + piece, rest, lost)
  {
    Assoc(output, piece, rest);
  }

  predicate Flow(s: State) {
    && StateFits(s)
    && s.pos == s.shared.bytesRead + HeldSize(s.parent.handler)
    && Accounted(s.input, s.pos, s.output, InFlight(s), s.lost)
  }

  predicate ParentEnded(s: State) {
    && (s.shared.producerEnded == ProdSucc ==>
          && s.shared.bytesRead == s.shared.fileSize
          && (s.parent.handler.Ignoring? || (s.parent.ignored && s.parent.handler == ProducerIdle)))
    && (s.parent.ignored ==> s.parent.handler == ProducerIdle && s.parent.queue == [])
  }

  predicate ChildEnded(s: State) {
    && (s.child.ignored ==> s.child.handler == ConsumerIdle && s.child.queue == [] && 0 < s.lost)
    && (s.child.main.Left? ==> s.child.handler == ConsumerIdle && s.child.queue == [])
    && s.shared.consumerEnded != ConsSucc
    && (s.child.main.Left? ==> s.child.main.exitCode == 1)
  }

  ghost predicate Inv(s: State) { Owned(s) && Flow(s) && ParentEnded(s) && ChildEnded(s) }

  /** The slots of the two handlers and of the consumer queue are all different. */
  lemma Apart(s: State, c: int)
    requires Owned(s)
    ensures c in s.child.queue ==> InProducer(s.parent.handler, c) == 0
    ensures InProducer(s.parent.handler, c) == 1 ==> InConsumer(s.child.handler, c) == 0
    ensures c in s.parent.queue || c in s.child.queue ==> IsChunk(c)
  {
    assert Places(s, c) <= 1;
    assert c in s.child.queue ==> Occurs(s.child.queue, c) >= 1;
    assert c in s.parent.queue ==> Occurs(s.parent.queue, c) >= 1;
  }

  lemma EndedStep(s: State, e: Event)
    requires ParentEnded(s) && ChildEnded(s) && Enabled(s, e)
    requires s.parent.queue != [] ==> IsChunk(s.parent.queue[0])
    ensures ParentEnded(Apply(s, e))
  {}

  lemma ChildEndedStep(s: State, e: Event)
    requires ChildEnded(s) && Enabled(s, e)
    ensures ChildEnded(Apply(s, e))
  {}

  /** The slot of the producer is not one the consumer will write from. */
  predicate ProducerApart(s: State) {
    && !s.parent.handler.ProducerIdle? && s.parent.handler.chunk !in s.child.queue
    && (s.child.handler.Writing? ==> s.child.handler.chunk != s.parent.handler.chunk)
  }

  /** t is s with these bytes in the slot of the producer. */
  predicate ReadBytes(s: State, t: State, data: seq<byte>)
    requires StateFits(s)
  {
    && s.parent.handler.Reading? && ProducerApart(s) && 0 < |data| <= CHUNK_SIZE && WellFormed(t)
    && var c := s.parent.handler.chunk;
       && t.shared.mem == Store(s.shared.mem, c, data) && t.shared.sizes == s.shared.sizes
       && t.child == s.child && t.parent.handler == Holding(c, |data|)
  }

  lemma InFlightRead(s: State, t: State, data: seq<byte>)
    requires StateFits(s) && ReadBytes(s, t, data)
    ensures StateFits(t) && InFlight(t) == InFlight(s) + data
  {
    TransitRead(s.shared.mem, s.shared.sizes, s.child.handler, s.child.queue, s.parent.handler.chunk, data);
  }

  lemma FlowReadBytes(s: State, t: State, n: nat)
    requires Flow(s) && s.pos + n <= |s.input| && ReadBytes(s, t, s.input[s.pos..s.pos + n])
    requires t.input == s.input && t.pos == s.pos + n && t.output == s.output && t.lost == s.lost
    requires t.shared.bytesRead == s.shared.bytesRead
    ensures Flow(t)
  {
    InFlightRead(s, t, s.input[s.pos..s.pos + n]);
    AccountedRead(s.input, s.pos, s.output, InFlight(s), s.lost, n);
  }

  lemma FlowRead(s: State, n: int)
    requires Flow(s) && Enabled(s, Read(n)) && 0 < n && ProducerApart(s)
    ensures Flow(AfterRead(s, n))
  {
    WellFormedStep(s, Read(n));
    FlowReadBytes(s, AfterRead(s, n), n);
  }

  lemma FlowPublish(s: State, ok: bool)
    requires Flow(s) && Enabled(s, Publish(ok))
    requires s.parent.handler.chunk !in s.child.queue
    ensures Flow(AfterPublish(s, ok))
  {
    TransitPublish(s.shared.mem, s.shared.sizes, s.child.handler, s.child.queue,
                   s.parent.handler.chunk, s.parent.handler.size);
  }

  /** t is s after the consumer wrote n bytes of its block. */
  predicate WroteBytes(s: State, t: State, n: nat) {
    && (match s.child.handler
        case ConsumerIdle => false
        case Writing(c, total, w) => w + n <= total && t.child.handler == Writing(c, total, w + n))
    && t.shared == s.shared && t.parent == s.parent && t.child.queue == s.child.queue
    && t.input == s.input && t.pos == s.pos && t.lost == s.lost
  }

  /** The n bytes. */
  function Piece(s: State, n: nat): seq<byte>
    requires StateFits(s) && s.child.handler.Writing? && s.child.handler.written + n <= s.child.handler.total
  {
    var Writing(c, total, w) := s.child.handler;
    Block(s.shared.mem, c, total)[w..w + n]
  }

  lemma WroteFits(s: State, t: State, n: nat)
    requires StateFits(s) && WellFormed(t) && WroteBytes(s, t, n)
    ensures StateFits(t)
  {}

  lemma InFlightWrite(s: State, t: State, n: nat)
    requires StateFits(s) && StateFits(t) && WroteBytes(s, t, n)
    ensures Piece(s, n) + InFlight(t) == InFlight(s)
  {
    var Writing(c, total, w) := s.child.handler;
    TransitWrite(s.shared.mem, s.shared.sizes, c, total, w, n, s.child.queue, s.parent.handler);
  }

  lemma FlowWriteBytes(s: State, t: State, n: nat)
    requires Flow(s) && WellFormed(t) && WroteBytes(s, t, n) && t.output == s.output + Piece(s, n)
    ensures Flow(t)
  {
    WroteFits(s, t, n);
    InFlightWrite(s, t, n);
    AccountedWrite(s.input, s.pos, s.output, Piece(s, n), InFlight(t), s.lost);
  }

  lemma FlowWrite(s: State, n: int)
    requires Flow(s) && Enabled(s, Write(n))
    ensures Flow(AfterWrite(s, n))
  {
    if n >= 0 {
      WellFormedStep(s, Write(n));
      FlowWriteBytes(s, AfterWrite(s, n), n);
    }
  }

  /** Signals, tests and end codes leave the data alone. */
  predicate Quiet(e: Event) {
    !e.Publish? && !e.ConsumerDeliver? && !e.Write? && (e.Read? ==> e.n <= 0)
  }

  /** The fields the bytes depend on. */
  predicate SameData(s: State, t: State) {
    && t.input == s.input && t.pos == s.pos && t.output == s.output && t.lost == s.lost
    && t.shared.mem == s.shared.mem && t.shared.sizes == s.shared.sizes && t.shared.bytesRead == s.shared.bytesRead
    && t.child.queue == s.child.queue
    && ((!s.parent.handler.Holding? && !t.parent.handler.Holding?) || t.parent.handler == s.parent.handler)
    && (t.child.handler == s.child.handler
        || (t.child.handler == ConsumerIdle && s.child.handler.Writing?
            && s.child.handler.written == s.child.handler.total))
  }

  lemma FlowFrame(s: State, t: State)
    requires Flow(s) && WellFormed(t) && SameData(s, t)
    ensures Flow(t)
  {
    assert InFlight(t) == InFlight(s);
  }

  lemma QuietStep(s: State, e: Event)
    requires Enabled(s, e) && Quiet(e)
    ensures SameData(s, Apply(s, e))
  {}

  lemma FlowQuiet(s: State, e: Event)
    requires Flow(s) && Enabled(s, e) && Quiet(e)
    ensures Flow(Apply(s, e))
  {
    WellFormedStep(s, e);
    QuietStep(s, e);
    FlowFrame(s, Apply(s, e));
  }

  lemma FlowDeliver(s: State)
    requires Owned(s) && Flow(s) && Enabled(s, ConsumerDeliver)
    ensures Flow(DeliverConsumer(s))
  {
    WellFormedStep(s, ConsumerDeliver);
    Apart(s, s.child.queue[0]);
    TransitDeliver(s.shared.mem, s.shared.sizes, s.child.queue, s.parent.handler);
  }

  lemma FlowStep(s: State, e: Event)
    requires Owned(s) && Flow(s) && Enabled(s, e)
    ensures Flow(Apply(s, e))
  {
    if Quiet(e) {
      FlowQuiet(s, e);
    } else {
      if e.Publish? || e.Read? { Apart(s, s.parent.handler.chunk); }
      match e
      case Publish(ok) => FlowPublish(s, ok);
      case Read(n) => FlowRead(s, n);
      case Write(n) => FlowWrite(s, n);
      case _ => FlowDeliver(s);
    }
  }

  lemma InvStep(s: State, e: Event)
    requires Inv(s) && Enabled(s, e)
    ensures Inv(Apply(s, e))
  {
    OwnedStep(s, e);
    FlowStep(s, e);
    if s.parent.queue != [] { Apart(s, s.parent.queue[0]); }
    EndedStep(s, e);
    ChildEndedStep(s, e);
  }

  lemma InvInit(s: State)
    requires Init(s)
    ensures Inv(s)
  {
    assert Flow(s);
    forall c ensures Places(s, c) == if IsChunk(c) then 1 else 0 {}
  }

  lemma InvRun(s: State, es: seq<Event>)
    requires Init(s) && Exec(Step, s, es).Some?
    ensures Inv(Exec(Step, s, es).value)
  {
    InvInit(s);
    forall t, e | Inv(t) && Step(t, e).Some? ensures Inv(Step(t, e).value) { InvStep(t, e); }
    Invariance(Step, (t: State) => Inv(t), s, es);
  }
}
