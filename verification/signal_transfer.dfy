/**
 File copy between two processes through eight shared slots.  Each slot number travels as the value
 of a queued real-time signal: SIG_PRODUCER asks the parent to fill the slot, SIG_CONSUMER asks the
 child to write it out.  One event is one system call, one signal delivery or one test of a shared
 field, so a run is an arbitrary interleaving of the two processes.
 */
module SignalTransfer {
  import opened Runs
  import opened Sequences

  const CHUNKS := 8
  const SHM_SIZE := 4096 * 1024
  const CHUNK_SIZE := SHM_SIZE / CHUNKS
  const MAX_ATTEMPTS := 100

  datatype EndCode = NotEnded | ProdSucc | ProdFail | ConsSucc | ConsFail

  /** Where the producer handler stands; the number is the slot it works on. */
  datatype Producer =
    | ProducerIdle
    | Reading(chunk: int)              // about to call read
    | Holding(chunk: int, size: nat)   // read returned size > 0
    | Ending(chunk: int)               // read returned 0 or -1 and is not repeated
    | Ignoring(chunk: int)             // end code stored, SIG_PRODUCER not yet ignored

  /** bytes_to_write is read once, when the handler starts. */
  datatype Consumer = ConsumerIdle | Writing(chunk: int, total: nat, written: nat)

  /** The main loop of the parent: test, pause, waitpid, end of main. */
  datatype ParentMain = ParentChecks | ParentPaused | ParentWaits | ParentGone

  /** The child: seeding loop, then test and pause; Left holds the exit code. */
  datatype ChildMain = Seeding | ChildChecks | ChildPaused | Left(exitCode: int)

  /** queue: signals sent and not yet delivered; ignored: the action was set to SIG_IGN. */
  datatype ParentProcess = ParentProcess(main: ParentMain, handler: Producer, queue: seq<int>, ignored: bool)

  datatype ChildProcess = ChildProcess(main: ChildMain, handler: Consumer, queue: seq<int>, ignored: bool, seeded: nat)

  datatype Shared = Shared(
    mem: seq<seq<byte>>, sizes: seq<nat>, fileSize: nat, bytesRead: nat, attempts: nat,
    producerEnded: EndCode, consumerEnded: EndCode
  )

  datatype State = State(
    input: seq<byte>, pos: nat, output: seq<byte>,
    shared: Shared, parent: ParentProcess, child: ChildProcess,
    retired: seq<int>,   // slot numbers no process and no queue holds any more
    lost: nat            // bytes read from the input that can no longer reach the output
  )

  datatype Event =
    | ProducerDeliver | Read(n: int) | Publish(ok: bool) | StoreEnd | IgnoreProducer
    | ParentCheck | ParentReap
    | Seed(ok: bool) | ChildCheck
    | ConsumerDeliver | Write(n: int) | Return(ok: bool)

  // ---------- Slots ----------

  predicate IsChunk(c: int) { 0 <= c < CHUNKS }

  /** The shared buffer, slot by slot. */
  predicate IsMemory(mem: seq<seq<byte>>) {
    |mem| == CHUNKS && forall i :: 0 <= i < CHUNKS ==> |mem[i]| == CHUNK_SIZE
  }

  /** The bytes of slot c that carry data. */
  function Block(mem: seq<seq<byte>>, c: int, size: nat): (r: seq<byte>)
    requires IsMemory(mem) && IsChunk(c) && size <= CHUNK_SIZE
    ensures |r| == size
  {
    mem[c][..size]
  }

  /** read() leaves the bytes after the ones it stores as they were. */
  function Store(mem: seq<seq<byte>>, c: int, data: seq<byte>): (r: seq<seq<byte>>)
    requires IsMemory(mem) && IsChunk(c) && |data| <= CHUNK_SIZE
    ensures IsMemory(r) && Block(r, c, |data|) == data
  {
    mem[c := data + mem[c][|data|..]]
  }

  predicate SlotsFit(mem: seq<seq<byte>>, sizes: seq<nat>, cs: seq<int>) {
    IsMemory(mem) && |sizes| == CHUNKS &&
    forall i :: 0 <= i < |cs| ==> IsChunk(cs[i]) && 0 < sizes[cs[i]] <= CHUNK_SIZE
  }

  /** The data waiting in the consumer queue, in delivery order. */
  function Queued(mem: seq<seq<byte>>, sizes: seq<nat>, cs: seq<int>): (r: seq<byte>)
    requires SlotsFit(mem, sizes, cs)
    ensures cs != [] ==> 0 < |r|
  {
    if cs == [] then [] else
      Block(mem, cs[0], sizes[cs[0]]) + Queued(mem, sizes, cs[1..])
  }

  lemma {:induction false} QueuedAppend(mem: seq<seq<byte>>, sizes: seq<nat>, cs: seq<int>, c: int)
    requires SlotsFit(mem, sizes, cs + [c])
    ensures SlotsFit(mem, sizes, cs) && SlotsFit(mem, sizes, [c])
    ensures Queued(mem, sizes, cs + [c]) == Queued(mem, sizes, cs) + Queued(mem, sizes, [c])
  {
    assert forall i :: 0 <= i < |cs| ==> (cs + [c])[i] == cs[i];
    assert (cs + [c])[|cs|] == c;
    if cs == [] {
      assert cs + [c] == [c];
    } else {
      assert (cs + [c])[1..] == cs[1..] + [c];
      QueuedAppend(mem, sizes, cs[1..], c);
      Assoc(Block(mem, cs[0], sizes[cs[0]]), Queued(mem, sizes, cs[1..]), Queued(mem, sizes, [c]));
    }
  }

  /** Slots outside the queue do not matter to it. */
  lemma {:induction false} QueuedFrame(mem: seq<seq<byte>>, sizes: seq<nat>, mem': seq<seq<byte>>, sizes': seq<nat>,
                                       cs: seq<int>)
    requires SlotsFit(mem, sizes, cs) && IsMemory(mem') && |sizes'| == CHUNKS
    requires forall c :: c in cs ==> sizes'[c] == sizes[c] && Block(mem', c, sizes[c]) == Block(mem, c, sizes[c])
    ensures SlotsFit(mem', sizes', cs) && Queued(mem', sizes', cs) == Queued(mem, sizes, cs)
  {
    if cs != [] {
      QueuedFrame(mem, sizes, mem', sizes', cs[1..]);
    }
  }

  // ---------- Steps ----------

  predicate WellFormed(s: State) {
    && IsMemory(s.shared.mem) && |s.shared.sizes| == CHUNKS && s.pos <= |s.input|
    && (forall i :: 0 <= i < CHUNKS ==> s.shared.sizes[i] <= CHUNK_SIZE)
    && match s.parent.handler {
         case ProducerIdle => true
         case Holding(c, n) => IsChunk(c) && n <= CHUNK_SIZE
         case h => IsChunk(h.chunk)
       }
    && match s.child.handler {
         case ConsumerIdle => true
         case Writing(c, total, written) => IsChunk(c) && written <= total <= CHUNK_SIZE
       }
  }

  /** A main loop goes on only when no handler runs and every pending signal was delivered. */
  predicate ParentRuns(s: State) {
    s.parent.handler == ProducerIdle && (s.parent.queue == [] || s.parent.ignored)
  }

  predicate ChildRuns(s: State) {
    s.child.handler == ConsumerIdle && (s.child.queue == [] || s.child.ignored)
  }

  predicate Enabled(s: State, e: Event) {
    WellFormed(s) &&
    match e
    case ProducerDeliver =>
      s.parent.handler == ProducerIdle && s.parent.queue != [] && !s.parent.ignored && s.parent.main != ParentGone
    case Read(n) => s.parent.handler.Reading? && -1 <= n <= CHUNK_SIZE && n <= |s.input| - s.pos
    case Publish(_) => s.parent.handler.Holding?
    case StoreEnd => s.parent.handler.Ending?
    case IgnoreProducer => s.parent.handler.Ignoring?
    case ParentCheck => s.parent.main == ParentChecks && ParentRuns(s)
    case ParentReap => s.parent.main == ParentWaits && ParentRuns(s) && s.child.main.Left?
    case Seed(_) => s.child.main == Seeding && s.child.seeded < CHUNKS && ChildRuns(s)
    case ChildCheck =>
      (s.child.main == ChildChecks || (s.child.main == Seeding && s.child.seeded == CHUNKS)) && ChildRuns(s)
    case ConsumerDeliver =>
      s.child.handler == ConsumerIdle && s.child.queue != [] && !s.child.ignored && !s.child.main.Left?
    case Write(n) =>
      s.child.handler.Writing? && s.child.handler.written < s.child.handler.total
      && -1 <= n <= s.child.handler.total - s.child.handler.written
    case Return(_) => s.child.handler.Writing? && s.child.handler.written == s.child.handler.total
  }

  /** A handler returning ends the pause or the waitpid it interrupted. */
  function ParentResumes(m: ParentMain): ParentMain {
    match m case ParentPaused => ParentChecks case ParentWaits => ParentGone case _ => m
  }

  function ChildResumes(m: ChildMain): ChildMain {
    if m == ChildPaused then ChildChecks else m
  }

  function ProducerDone(p: ParentProcess): ParentProcess {
    p.(handler := ProducerIdle, main := ParentResumes(p.main))
  }

  function ConsumerDone(c: ChildProcess): ChildProcess {
    c.(handler := ConsumerIdle, main := ChildResumes(c.main))
  }

  /** sigqueue towards the parent: an ignored signal, or one sent to an ended process, disappears. */
  function SendToProducer(s: State, c: int): State {
    if s.parent.ignored || s.parent.main == ParentGone then s.(retired := s.retired + [c])
    else s.(parent := s.parent.(queue := s.parent.queue + [c]))
  }

  function SendToConsumer(s: State, c: int, size: nat): State {
    if s.child.ignored || s.child.main.Left? then s.(retired := s.retired + [c], lost := s.lost + size)
    else s.(child := s.child.(queue := s.child.queue + [c]))
  }

  function DeliverProducer(s: State): State
    requires s.parent.queue != []
  {
    var c, p := s.parent.queue[0], s.parent.(queue := s.parent.queue[1..]);
    if IsChunk(c) then s.(parent := p.(handler := Reading(c)))
    else s.(parent := ProducerDone(p), shared := s.shared.(producerEnded := ProdFail), retired := s.retired + [c])
  }

  function AfterRead(s: State, n: int): State
    requires Enabled(s, Read(n))
  {
    var c, sh := s.parent.handler.chunk, s.shared.(attempts := s.shared.attempts + 1);
    if n > 0 then
      s.(pos := s.pos + n, shared := sh.(mem := Store(sh.mem, c, s.input[s.pos..s.pos + n])),
         parent := s.parent.(handler := Holding(c, n)))
    else if n == 0 && sh.bytesRead < sh.fileSize && sh.attempts < MAX_ATTEMPTS - 1 then
      s.(shared := sh)
    else
      s.(shared := sh, parent := s.parent.(handler := Ending(c)))
  }

  function AfterPublish(s: State, ok: bool): State
    requires Enabled(s, Publish(ok))
  {
    var c, n := s.parent.handler.chunk, s.parent.handler.size;
    var sh := s.shared.(sizes := s.shared.sizes[c := n], bytesRead := s.shared.bytesRead + n);
    if ok then SendToConsumer(s.(shared := sh, parent := ProducerDone(s.parent)), c, n)
    else s.(shared := sh.(producerEnded := ProdFail), parent := ProducerDone(s.parent),
            retired := s.retired + [c], lost := s.lost + n)
  }

  function AfterStoreEnd(s: State): State
    requires s.parent.handler.Ending?
  {
    s.(shared := s.shared.(producerEnded := if s.shared.bytesRead == s.shared.fileSize then ProdSucc else ProdFail),
       parent := s.parent.(handler := Ignoring(s.parent.handler.chunk)))
  }

  /** Setting SIG_IGN discards what was pending. */
  function AfterIgnore(s: State): State
    requires s.parent.handler.Ignoring?
  {
    s.(parent := ProducerDone(s.parent).(ignored := true, queue := []),
       retired := s.retired + [s.parent.handler.chunk] + s.parent.queue)
  }

  function AfterParentCheck(s: State): State {
    s.(parent := s.parent.(main := if s.shared.producerEnded == NotEnded && s.shared.consumerEnded == NotEnded
                                   then ParentPaused else ParentWaits))
  }

  function AfterSeed(s: State, ok: bool): State {
    if ok then SendToProducer(s.(child := s.child.(seeded := s.child.seeded + 1)), s.child.seeded)
    else s.(child := s.child.(main := Left(1)))
  }

  function AfterChildCheck(s: State): State {
    s.(child := s.child.(main := if s.shared.producerEnded == NotEnded then ChildPaused
                                 else Left(if s.shared.consumerEnded == ConsSucc then 0 else 1)))
  }

  function DeliverConsumer(s: State): State
    requires WellFormed(s) && s.child.queue != []
  {
    var c, k := s.child.queue[0], s.child.(queue := s.child.queue[1..]);
    if IsChunk(c) then s.(child := k.(handler := Writing(c, s.shared.sizes[c], 0)))
    else s.(child := ConsumerDone(k), shared := s.shared.(consumerEnded := ConsFail), retired := s.retired + [c])
  }

  function QueuedBytes(s: State): (n: nat) {
    if SlotsFit(s.shared.mem, s.shared.sizes, s.child.queue)
    then |Queued(s.shared.mem, s.shared.sizes, s.child.queue)| else 0
  }

  function AfterWrite(s: State, n: int): State
    requires Enabled(s, Write(n))
  {
    var Writing(c, total, w) := s.child.handler;
    if n >= 0 then
      s.(output := s.output + Block(s.shared.mem, c, total)[w..w + n],
         child := s.child.(handler := Writing(c, total, w + n)))
    else
      s.(shared := s.shared.(consumerEnded := ConsFail),
         child := ConsumerDone(s.child).(ignored := true, queue := []),
         retired := s.retired + [c] + s.child.queue,
         lost := s.lost + (total - w) + QueuedBytes(s))
  }

  function AfterReturn(s: State, ok: bool): State
    requires s.child.handler.Writing?
  {
    var c, t := s.child.handler.chunk, s.(child := ConsumerDone(s.child));
    if ok then SendToProducer(t, c)
    else t.(shared := s.shared.(consumerEnded := ConsFail), retired := s.retired + [c])
  }

  function Apply(s: State, e: Event): State
    requires Enabled(s, e)
  {
    match e
    case ProducerDeliver => DeliverProducer(s)
    case Read(n) => AfterRead(s, n)
    case Publish(ok) => AfterPublish(s, ok)
    case StoreEnd => AfterStoreEnd(s)
    case IgnoreProducer => AfterIgnore(s)
    case ParentCheck => AfterParentCheck(s)
    case ParentReap => s.(parent := s.parent.(main := ParentGone))
    case Seed(ok) => AfterSeed(s, ok)
    case ChildCheck => AfterChildCheck(s)
    case ConsumerDeliver => DeliverConsumer(s)
    case Write(n) => AfterWrite(s, n)
    case Return(ok) => AfterReturn(s, ok)
  }

  function Step(s: State, e: Event): (r: Option<State>) {
    if Enabled(s, e) then Some(Apply(s, e)) else None
  }

  lemma WellFormedStep(s: State, e: Event)
    requires Enabled(s, e)
    ensures WellFormed(Apply(s, e))
  {}

  lemma Extend(s: State, es: seq<Event>, t: State, e: Event, u: State)
    requires Exec(Step, s, es) == Some(t) && Enabled(t, e) && u == Apply(t, e)
    ensures Exec(Step, s, es + [e]) == Some(u) && WellFormed(u)
  {
    WellFormedStep(t, e);
    ExecAppend(Step, s, es, e);
  }

  /** The state left by init_shared_memory and fork, for any file, file_size and earlier memory content. */
  predicate Init(s: State) {
    && IsMemory(s.shared.mem)
    && s.shared == Shared(s.shared.mem, seq(CHUNKS, i => 0), s.shared.fileSize, 0, 0, NotEnded, NotEnded)
    && s.parent == ParentProcess(ParentChecks, ProducerIdle, [], false)
    && s.child == ChildProcess(Seeding, ConsumerIdle, [], false, 0)
    && s == State(s.input, 0, [], s.shared, s.parent, s.child, [], 0)
  }
}
