/**
 File copy through a message queue.  The end is announced by a shared flag together with a message
 "EOF"; the receiver tests the first three bytes of its message buffer, in which the bytes after a
 short message are those of earlier messages.
 */
module MqTransfer {
  import opened Runs
  import opened Sequences
  import opened CopySpec

  const MQ_SIZE := 4096
  const EOF_MSG: seq<byte> := [69, 79, 70]

  datatype Sender = SRead | SSend | SFlag | SSendEof | SDone | SFailed

  /** isEof, byEof: whether the message at hand is the end message; the program does not know. */
  datatype Receiver =
    | RReceive | RTest(len: nat, isEof: bool) | RWrite(len: nat, written: nat) | RDone(code: int, byEof: bool)

  datatype State = State(
    input: seq<byte>, pos: nat, output: seq<byte>,
    capacity: nat, queue: seq<seq<byte>>, eofFlag: bool,
    sender: Sender, receiver: Receiver, buffer: seq<byte>,
    blocks: seq<seq<byte>>,   // all blocks read so far
    sent: nat, received: nat, // how many of them were queued, taken
    eofSent: bool, sendFailed: bool
  )

  datatype Event =
    | Read(n: int) | Send(ok: bool) | SetFlag | SendEof(ok: bool)
    | Receive(ok: bool) | Test | Write(n: int)

  /** msgrcv stores the message at the start of the buffer and leaves the rest. */
  function Overlay(buffer: seq<byte>, m: seq<byte>): (r: seq<byte>)
    requires |m| <= |buffer|
    ensures |r| == |buffer| && r[..|m|] == m
  {
    m + buffer[|m|..]
  }

  predicate StartsWithEof(buffer: seq<byte>) { EOF_MSG <= buffer }

  predicate Fits(blocks: seq<seq<byte>>) {
    forall i :: 0 <= i < |blocks| ==> 0 < |blocks[i]| <= MQ_SIZE
  }

  /** The receive buffer after these blocks; it starts as zeros. */
  function Overlaid(blocks: seq<seq<byte>>): (r: seq<byte>)
    requires Fits(blocks)
    ensures |r| == MQ_SIZE
  {
    if blocks == [] then seq(MQ_SIZE, i => 0)
    else Overlay(Overlaid(blocks[..|blocks| - 1]), blocks[|blocks| - 1])
  }

  predicate Enabled(s: State, e: Event) {
    |s.buffer| == MQ_SIZE && s.pos <= |s.input| && Fits(s.blocks) &&
    match e
    case Read(n) => s.sender == SRead && -1 <= n <= MQ_SIZE && n <= |s.input| - s.pos && (n == 0 ==> s.pos == |s.input|)
    case Send(ok) => s.sender == SSend && s.sent < |s.blocks| && (ok ==> |s.queue| < s.capacity)
    case SetFlag => s.sender == SFlag
    case SendEof(ok) => s.sender == SSendEof && (ok ==> |s.queue| < s.capacity)
    case Receive(ok) => s.receiver == RReceive && (ok ==> s.queue != [] && |s.queue[0]| <= MQ_SIZE)
    case Test => s.receiver.RTest?
    case Write(n) =>
      s.receiver.RWrite? && s.receiver.written < s.receiver.len <= MQ_SIZE
      && -1 <= n <= s.receiver.len - s.receiver.written
  }

  function AfterRead(s: State, n: int): State
    requires Enabled(s, Read(n))
  {
    if n > 0 then s.(pos := s.pos + n, blocks := s.blocks + [s.input[s.pos..s.pos + n]], sender := SSend)
    else s.(sender := if n == 0 then SFlag else SFailed)
  }

  function AfterSend(s: State, ok: bool): State
    requires Enabled(s, Send(ok))
  {
    if ok then s.(queue := s.queue + [s.blocks[s.sent]], sent := s.sent + 1, sender := SRead)
    else s.(sendFailed := true, sender := SFlag)
  }

  function AfterReceive(s: State, ok: bool): State
    requires Enabled(s, Receive(ok))
  {
    if ok then
      var m := s.queue[0];
      s.(queue := s.queue[1..], buffer := Overlay(s.buffer, m),
         received := if s.received < s.sent then s.received + 1 else s.received,
         receiver := RTest(|m|, s.received == s.sent))
    else s.(receiver := RDone(1, false))
  }

  function AfterTest(s: State): State
    requires s.receiver.RTest?
  {
    if s.eofFlag && StartsWithEof(s.buffer) then s.(receiver := RDone(0, s.receiver.isEof))
    else s.(receiver := RWrite(s.receiver.len, 0))
  }

  /** A block written to the end takes the receiver back to msgrcv. */
  function AfterWrite(s: State, n: int): State
    requires Enabled(s, Write(n))
  {
    var RWrite(len, w) := s.receiver;
    if n > 0 then
      s.(output := s.output + s.buffer[w..w + n], receiver := if w + n == len then RReceive else RWrite(len, w + n))
    else s.(receiver := RDone(1, false))
  }

  function Apply(s: State, e: Event): State
    requires Enabled(s, e)
  {
    match e
    case Read(n) => AfterRead(s, n)
    case Send(ok) => AfterSend(s, ok)
    case SetFlag => s.(eofFlag := true, sender := SSendEof)
    case SendEof(ok) =>
      if ok then s.(queue := s.queue + [EOF_MSG], eofSent := true, sender := SDone) else s.(sender := SDone)
    case Receive(ok) => AfterReceive(s, ok)
    case Test => AfterTest(s)
    case Write(n) => AfterWrite(s, n)
  }

  function Step(s: State, e: Event): (r: Option<State>) {
    if Enabled(s, e) then Some(Apply(s, e)) else None
  }

  predicate Init(s: State) {
    s == State(s.input, 0, [], s.capacity, [], false, SRead, RReceive, seq(MQ_SIZE, i => 0), [], 0, 0, false, false)
  }

  lemma Extend(s: State, es: seq<Event>, t: State, e: Event, u: State)
    requires Exec(Step, s, es) == Some(t) && Enabled(t, e) && u == Apply(t, e)
    ensures Exec(Step, s, es + [e]) == Some(u)
  {
    ExecExtend(Step, s, es, t, e, u);
  }

  // ---------- Invariant ----------

  predicate SenderFits(s: State) {
    && Fits(s.blocks) && s.pos <= |s.input| && Concat(s.blocks) == s.input[..s.pos]
    && s.received <= s.sent <= |s.blocks|
    && (if s.sender == SSend || s.sendFailed then |s.blocks| == s.sent + 1 else |s.blocks| == s.sent)
    && (s.sender == SSend || s.sender == SRead ==> !s.sendFailed)
    && (s.eofFlag <==> s.sender == SSendEof || s.sender == SDone)
    && (s.eofSent ==> s.sender == SDone)
    && (s.eofFlag || s.sender == SFlag ==> s.sendFailed || s.pos == |s.input|)
  }

  /** The end message has left the queue. */
  predicate EofTaken(s: State) {
    (s.receiver.RTest? && s.receiver.isEof) || (s.receiver.RDone? && s.receiver.byEof)
  }

  predicate QueueFits(s: State)
    requires SenderFits(s)
  {
    && s.queue == s.blocks[s.received..s.sent] + (if s.eofSent && !EofTaken(s) then [EOF_MSG] else [])
    && (EofTaken(s) ==> s.eofSent && s.received == s.sent)
    && (if EofTaken(s) then StartsWithEof(s.buffer) && |s.buffer| == MQ_SIZE
        else s.buffer == Overlaid(s.blocks[..s.received]))
  }

  /** The blocks written out completely. */
  function Written(s: State): nat {
    match s.receiver
    case RReceive => s.received
    case RDone(_, true) => s.received
    case RTest(_, true) => s.received
    case _ => if 0 < s.received then s.received - 1 else 0
  }

  predicate ReceiverFits(s: State)
    requires SenderFits(s)
  {
    && (match s.receiver
        case RTest(len, false) => 0 < s.received && len == |s.blocks[s.received - 1]|
        case RWrite(len, w) => 0 < s.received && len == |s.blocks[s.received - 1]| && w < len
        case RDone(0, false) => 0 < s.received && s.eofFlag && StartsWithEof(Overlaid(s.blocks[..s.received]))
        case _ => true)
    && (match s.receiver
        case RWrite(len, w) => s.output == Concat(s.blocks[..Written(s)]) + s.blocks[s.received - 1][..w]
        case RDone(1, _) => true
        case _ => s.output == Concat(s.blocks[..Written(s)]))
    && s.output <= s.input[..s.pos]
  }

  predicate Inv(s: State) { SenderFits(s) && QueueFits(s) && ReceiverFits(s) }

  lemma InvSend(s: State, ok: bool)
    requires Inv(s) && Enabled(s, Send(ok))
    ensures Inv(AfterSend(s, ok))
  {
    assert s.blocks[s.received..s.sent + 1] == s.blocks[s.received..s.sent] + [s.blocks[s.sent]];
  }

  lemma InvStopReading(s: State, n: int)
    requires Inv(s) && Enabled(s, Read(n)) && n <= 0
    ensures Inv(AfterRead(s, n))
  {}

  lemma InvSetFlag(s: State)
    requires Inv(s) && Enabled(s, SetFlag)
    ensures Inv(Apply(s, SetFlag))
  {}

  lemma InvSendEof(s: State, ok: bool)
    requires Inv(s) && Enabled(s, SendEof(ok))
    ensures Inv(Apply(s, SendEof(ok)))
  {
    if ok { assert Apply(s, SendEof(ok)).queue == s.blocks[s.received..s.sent] + [EOF_MSG]; }
  }

  lemma ReadGrows(s: State, b: seq<byte>, n: nat)
    requires Inv(s) && s.pos + n <= |s.input| && b == s.input[s.pos..s.pos + n]
    ensures var blocks := s.blocks + [b];
            && Concat(blocks) == s.input[..s.pos + n] && s.output <= s.input[..s.pos + n]
            && blocks[..s.received] == s.blocks[..s.received]
            && blocks[s.received..s.sent] == s.blocks[s.received..s.sent]
            && blocks[..Written(s)] == s.blocks[..Written(s)]
  {
    ConcatAppend(s.blocks, b);
    SplitAt(s.input, s.pos, n);
  }

  lemma InvRead(s: State, n: int)
    requires Inv(s) && Enabled(s, Read(n)) && 0 < n
    ensures Inv(AfterRead(s, n))
  {
    var t, b := AfterRead(s, n), s.input[s.pos..s.pos + n];
    ReadGrows(s, b, n);
    assert SenderFits(t) && QueueFits(t);
  }

  lemma QueueFront(s: State)
    requires SenderFits(s) && QueueFits(s) && s.received < s.sent
    ensures s.queue != [] && s.queue[0] == s.blocks[s.received]
    ensures s.queue[1..] == s.blocks[s.received + 1..s.sent] + (if s.eofSent && !EofTaken(s) then [EOF_MSG] else [])
  {
    var blocks, last := s.blocks[s.received..s.sent], if s.eofSent && !EofTaken(s) then [EOF_MSG] else [];
    assert blocks[1..] == s.blocks[s.received + 1..s.sent];
    DropConcat(blocks, last, 1);
  }

  lemma InvReceiveBlock(s: State)
    requires Inv(s) && Enabled(s, Receive(true)) && s.received < s.sent
    ensures Inv(AfterReceive(s, true))
  {
    QueueFront(s);
    TakeOne(s.blocks, s.received);
    assert SenderFits(AfterReceive(s, true));
  }

  lemma InvReceiveEof(s: State)
    requires Inv(s) && Enabled(s, Receive(true)) && s.received == s.sent
    ensures Inv(AfterReceive(s, true))
  {
    assert s.queue == [EOF_MSG];
  }

  lemma InvReceive(s: State, ok: bool)
    requires Inv(s) && Enabled(s, Receive(ok))
    ensures Inv(AfterReceive(s, ok))
  {
    if ok {
      if s.received < s.sent { InvReceiveBlock(s); } else { InvReceiveEof(s); }
    }
  }

  lemma InvTest(s: State)
    requires Inv(s) && s.receiver.RTest?
    ensures Inv(AfterTest(s))
  {
    assert SenderFits(AfterTest(s)) && QueueFits(AfterTest(s));
  }

  /** Writing bytes w to w + n of block r - 1 after everything before them. */
  lemma PartWritten(blocks: seq<seq<byte>>, r: nat, w: nat, n: nat)
    requires 0 < r <= |blocks| && w + n <= |blocks[r - 1]|
    ensures Concat(blocks[..r - 1]) + blocks[r - 1][..w] + blocks[r - 1][w..w + n]
         == Concat(blocks[..r - 1]) + blocks[r - 1][..w + n] <= Concat(blocks)
    ensures w + n == |blocks[r - 1]| ==> Concat(blocks[..r - 1]) + blocks[r - 1][..w + n] == Concat(blocks[..r])
  {
    var b, before := blocks[r - 1], Concat(blocks[..r - 1]);
    assert blocks[..r] == blocks[..r - 1] + [b];
    ConcatAppend(blocks[..r - 1], b);
    ConcatPrefix(blocks, r);
    SplitAt(b, w, n);
    Assoc(before, b[..w], b[w..w + n]);
    SplitAt(b, 0, w + n);
    Assoc(before, b[..w + n], b[w + n..]);
    assert b[0..w + n] == b[..w + n] && b[0..] == b;
  }

  lemma WriteBytes(s: State, n: int)
    requires SenderFits(s) && QueueFits(s) && ReceiverFits(s) && Enabled(s, Write(n)) && 0 < n
    ensures var r, w := s.received, s.receiver.written;
            0 < r && w + n <= |s.blocks[r - 1]| && s.buffer[w..w + n] == s.blocks[r - 1][w..w + n]
  {
    var r, w := s.received, s.receiver.written;
    var b := s.blocks[r - 1];
    assert s.blocks[..r][..r - 1] == s.blocks[..r - 1] && s.blocks[..r][r - 1] == b;
    assert s.buffer[..|b|] == b;
    Subrange(s.buffer, 0, |b|, w, n);
  }

  lemma InvWrite(s: State, n: int)
    requires Inv(s) && Enabled(s, Write(n))
    ensures Inv(AfterWrite(s, n))
  {
    if 0 < n {
      WriteBytes(s, n);
      PartWritten(s.blocks, s.received, s.receiver.written, n);
      var t, r := AfterWrite(s, n), s.received;
      assert SenderFits(t) && QueueFits(t);
      assert t.output == Concat(s.blocks[..r - 1]) + s.blocks[r - 1][..s.receiver.written + n];
    }
  }

  lemma InvStep(s: State, e: Event)
    requires Inv(s) && Enabled(s, e)
    ensures Inv(Apply(s, e))
  {
    match e
    case Receive(ok) => InvReceive(s, ok);
    case Test => InvTest(s);
    case Write(n) => InvWrite(s, n);
    case Read(n) => if 0 < n { InvRead(s, n); } else { InvStopReading(s, n); }
    case Send(ok) => InvSend(s, ok);
    case SetFlag => InvSetFlag(s);
    case SendEof(ok) => InvSendEof(s, ok);
  }

  lemma InvRun(s: State, es: seq<Event>)
    requires Init(s) && Exec(Step, s, es).Some?
    ensures Inv(Exec(Step, s, es).value) && Exec(Step, s, es).value.input == s.input
  {
    var inv := (t: State) => Inv(t) && t.input == s.input;
    forall t, e | inv(t) && Step(t, e).Some? ensures inv(Step(t, e).value) { InvStep(t, e); }
    Invariance(Step, inv, s, es);
  }

  // ---------- What is promised ----------

  lemma WriteGrows(s: State, e: Event)
    requires Enabled(s, e)
    ensures Apply(s, e).input == s.input
    ensures Apply(s, e).output == s.output || |s.output| < |Apply(s, e).output|
  {}

  /** Every step is a step of the copy specification; in particular the end message is never written out. */
  lemma RefinesCopy(s: State, es: seq<Event>, e: Event)
    requires Init(s) && Exec(Step, s, es).Some? && Enabled(Exec(Step, s, es).value, e)
    ensures CopyStep(s.input, Exec(Step, s, es).value.output, Apply(Exec(Step, s, es).value, e).output)
  {
    InvRun(s, es);
    var t := Exec(Step, s, es).value;
    InvStep(t, e);
    WriteGrows(t, e);
  }

  /** The end message always ends the loop: the flag is set before it is sent. */
  lemma EofMessageEndsLoop(s: State, es: seq<Event>)
    requires Init(s) && Exec(Step, s, es).Some?
    requires var r := Exec(Step, s, es).value.receiver; r.RTest? && r.isEof
    ensures AfterTest(Exec(Step, s, es).value).receiver == RDone(0, true)
  {
    InvRun(s, es);
  }

  /** Some block, laid over what the buffer held before, begins with "EOF". */
  ghost predicate LooksLikeEof(blocks: seq<seq<byte>>)
    requires Fits(blocks)
  {
    exists k :: 0 <= k <= |blocks| && StartsWithEof(Overlaid(blocks[..k]))
  }

  /**
   When the receiver leaves its loop normally and every send succeeded, the copy is complete exactly
   when the message that ended the loop was the end message.
   */
  lemma CompleteIffEndedByEof(s: State, es: seq<Event>)
    requires Init(s) && Exec(Step, s, es).Some?
    requires var t := Exec(Step, s, es).value; t.receiver.RDone? && t.receiver.code == 0 && !t.sendFailed
    ensures var t := Exec(Step, s, es).value; t.output == s.input <==> t.receiver.byEof
  {
    InvRun(s, es);
    var t := Exec(Step, s, es).value;
    if t.receiver.byEof {
      assert t.blocks[..t.received] == t.blocks;
    } else {
      ConcatPrefix(t.blocks, t.received - 1);
    }
  }

  /** If no block looks like the end message, the receiver leaves its loop with the whole input. */
  lemma NoLookalikeMeansComplete(s: State, es: seq<Event>)
    requires Init(s) && Exec(Step, s, es).Some?
    requires var t := Exec(Step, s, es).value;
             t.receiver.RDone? && t.receiver.code == 0 && !t.sendFailed && Fits(t.blocks) && !LooksLikeEof(t.blocks)
    ensures Exec(Step, s, es).value.output == s.input
  {
    InvRun(s, es);
    CompleteIffEndedByEof(s, es);
  }
}
